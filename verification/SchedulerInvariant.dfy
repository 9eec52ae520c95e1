/** What holds of the scheduler after every call: threads are conserved, the queue is ordered, and no ready thread
    has a higher priority than the running one. */
module SchedulerInvariant {
  import opened Options
  import opened ReadyQueue
  import opened SchedulerSpec

  // ---------------------------------------------------------------- the invariant

  /** The thread is in the one place that its state says. */
  predicate InPlace(s: Sched, t: Tid)
    requires t < |s.threads|
  {
    var st := s.threads[t].state;
    && !st.New?
    && (st.Running? <==> s.running == Some(t))
    && (st.Ready? || st.Waiting? <==> t in s.queue)
  }

  /** Every thread is running, in the queue once, or terminated. */
  predicate Placed(s: Sched) {
    NoDuplicates(s.queue) && forall t :: 0 <= t < |s.threads| ==> InPlace(s, t)
  }

  /** An event is recorded exactly while a thread waits, and it is one that the scheduler knows. */
  predicate EventsMatch(s: Sched) {
    && s.io <= SO_MAX_NUM_EVENTS
    && forall t :: 0 <= t < |s.threads| ==>
         if s.threads[t].state.Waiting? then s.threads[t].event < s.io else s.threads[t].event == NO_EVENT
  }

  /** Between calls every thread has time left, and no more than the quantum. */
  predicate HasTime(s: Sched) {
    s.quantum >= 1 && forall t :: 0 <= t < |s.threads| ==> 1 <= s.threads[t].timeQuantum <= s.quantum
  }

  /** No ready thread is kept from running by one of lower priority, nor by nobody. */
  predicate Fair(s: Sched)
    requires Wf(s)
  {
    forall t :: 0 <= t < |s.threads| && s.threads[t].state.Ready? ==>
      s.running.Some? && s.threads[t].priority <= s.threads[s.running.value].priority
  }

  predicate Inv(s: Sched) {
    Wf(s) && Sorted(s.queue, s.threads) && Placed(s) && EventsMatch(s) && HasTime(s) && Fair(s)
  }

  /** No thread has ended, none has come back, and none was created terminated. */
  predicate SameEnds(ts: seq<Thread>, us: seq<Thread>) {
    && |ts| <= |us|
    && forall t :: 0 <= t < |us| ==> (us[t].state.Terminated? <==> t < |ts| && ts[t].state.Terminated?)
  }

  // ---------------------------------------------------------------- the scheduler inside a call

  /** The invariant while thread `t` is between its places and nobody runs. */
  predicate Floating(s: Sched, t: Tid) {
    && Wf(s) && Sorted(s.queue, s.threads) && EventsMatch(s) && HasTime(s)
    && NoDuplicates(s.queue) && t < |s.threads| && t !in s.queue && s.running.None?
    && !s.threads[t].state.Terminated?
    && forall u :: 0 <= u < |s.threads| && u != t ==> InPlace(s, u)
  }

  /** The same with every thread in its place. */
  predicate Settled(s: Sched) {
    Wf(s) && Sorted(s.queue, s.threads) && EventsMatch(s) && HasTime(s) && Placed(s) && s.running.None?
  }

  /** The front of the queue is scheduled: the invariant holds again. */
  lemma PromoteRestores(s: Sched, x: Tid)
    requires Settled(s) && Front(s.queue, s.threads) == Some(x)
    ensures x < |s.threads| && Inv(Promote(s, x)) && SameEnds(s.threads, Promote(s, x).threads)
  {
    hide Dequeue, Sorted, NoDuplicates;
    FrontIsHighest(s.queue, s.threads);
    DequeueMembers(s.queue, s.threads);
    DequeueKeepsSorted(s.queue, s.threads);
    SortedStays(Dequeue(s.queue, s.threads), s.threads, Promote(s, x).threads);
    assert InPlace(s, x);
    forall u | 0 <= u < |s.threads|
      ensures InPlace(Promote(s, x), u)
      ensures s.threads[u].state.Ready? ==> s.threads[u].priority <= s.threads[x].priority
    {
      assert InPlace(s, u);
    }
  }

  /** With nothing ready, nobody needs to run. */
  lemma NobodyReady(s: Sched)
    requires Settled(s) && Front(s.queue, s.threads).None?
    ensures Inv(s)
  {
    FrontIsHighest(s.queue, s.threads);
    forall u | 0 <= u < |s.threads| ensures !s.threads[u].state.Ready? {
      assert InPlace(s, u);
    }
  }

  /** What `check_preempt` does when nobody runs: the front is posted, or nothing happens. */
  lemma CheckIdle(s: Sched)
    requires Settled(s)
    ensures var f := Front(s.queue, s.threads);
            var o := CheckPreempt(s, f);
            && Inv(o.sched) && SameEnds(s.threads, o.sched.threads) && o.overtaken == [] && o.sched.running == f
            && o.acts == (if f.Some? then [Post(f.value)] else [])
            && (f.Some? ==> o.sched == Promote(s, f.value)) && (f.None? ==> o.sched == s)
  {
    hide Inv, Settled;
    FrontInRange(s);
    if Front(s.queue, s.threads).Some? {
      PromoteRestores(s, Front(s.queue, s.threads).value);
    } else {
      NobodyReady(s);
    }
  }

  lemma FrontInRange(s: Sched)
    requires Settled(s)
    ensures Wf(s) && s.running.None?
            && (Front(s.queue, s.threads).Some? ==> Front(s.queue, s.threads).value < |s.threads|)
  {
  }

  /** The thread between its places goes into the queue, ready unless it waits. */
  function Queued(s: Sched, t: Tid): Sched
    requires Wf(s) && t < |s.threads|
  {
    var s := s.(queue := Insert(s.queue, t, s.threads));
    if s.threads[t].state.Waiting? then s else SetState(s, t, Ready)
  }

  lemma QueuedSettles(s: Sched, t: Tid)
    requires Floating(s, t)
    ensures Settled(Queued(s, t)) && SameEnds(s.threads, Queued(s, t).threads)
  {
    hide Insert, InPlace, Sorted, NoDuplicates;
    InsertKeepsDistinct(s.queue, t, s.threads);
    InsertKeepsSorted(s.queue, t, s.threads);
    SortedStays(Insert(s.queue, t, s.threads), s.threads, Queued(s, t).threads);
    forall u | 0 <= u < |s.threads| ensures InPlace(Queued(s, t), u) {
      QueuedInPlace(s, t, u);
    }
  }

  lemma QueuedInPlace(s: Sched, t: Tid, u: Tid)
    requires Wf(s) && t < |s.threads| && u < |s.threads| && t !in s.queue && s.running != Some(t)
    requires !s.threads[t].state.Terminated? && (u != t ==> InPlace(s, u))
    ensures InPlace(Queued(s, t), u)
  {
    hide Insert;
    InsertMembers(s.queue, t, s.threads);
  }

  /** Nobody running, `schedule_thread` never waits, never preempts, and schedules the front. */
  lemma ScheduleIdle(s: Sched, t: Tid)
    requires Floating(s, t)
    ensures var q := Queued(s, t);
            var f := Front(q.queue, q.threads);
            var o := ScheduleThread(s, t);
            && Settled(q) && Inv(o.sched) && SameEnds(s.threads, o.sched.threads) && o.overtaken == []
               && o.sched.running == f
            && o.acts == (if f.Some? then [Post(f.value)] else [])
            && (f.Some? ==> o.sched == Promote(q, f.value))
  {
    hide Floating, Insert, Inv, Settled, Promote;
    QueuedSettles(s, t);
    FloatingIsWf(s, t);
    CheckIdle(Queued(s, t));
  }

  lemma FloatingIsWf(s: Sched, t: Tid)
    requires Floating(s, t)
    ensures Wf(s) && t < |s.threads|
  {
  }

  /** A thread that is ready in the queue keeps the front from being empty. */
  lemma FrontExists(s: Sched, t: Tid)
    requires Settled(s) && t in s.queue && t < |s.threads| && !s.threads[t].state.Waiting?
    ensures Front(s.queue, s.threads).Some?
  {
    FrontIsHighest(s.queue, s.threads);
  }

  // ---------------------------------------------------------------- the calls

  /** A call by the running thread `r` that keeps it running, or hands over to `x` and waits on `r`'s own
      semaphore as its last action. */
  predicate HandsOver(s: Sched, o: Outcome) {
    s.running.Some?
    && if o.acts == [] then o.sched.running == s.running
       else o.sched.running.Some? && o.acts == [Post(o.sched.running.value), Wait(s.running.value)]
  }

  /** `so_exec`: one unit of time is used; at the end of the quantum the thread queues up again. */
  lemma ExecKeepsInv(s: Sched)
    requires Inv(s) && s.running.Some?
    ensures var o := Exec(s);
            Inv(o.sched) && SameEnds(s.threads, o.sched.threads) && HandsOver(s, o) && o.overtaken == []
  {
    var r := s.running.value;
    assert InPlace(s, r);
    var left := Tick(s.threads[r].timeQuantum);
    if left != 0 {
      var d := s.(threads := s.threads[r := s.threads[r].(timeQuantum := left)]);
      hide Sorted, NoDuplicates;
      SortedStays(s.queue, s.threads, d.threads);
      forall u | 0 <= u < |s.threads| ensures InPlace(d, u) { assert InPlace(s, u); }
    } else {
      var d := s.(threads := s.threads[r := s.threads[r].(timeQuantum := s.quantum, state := Ready)], running := None);
      Descheduled(s, d);
      YieldHandsOver(s, d);
    }
  }

  /** The running thread stops running and is between its places. */
  lemma Descheduled(s: Sched, d: Sched)
    requires Inv(s) && s.running.Some?
    requires var r := s.running.value;
             && |d.threads| == |s.threads| && d.threads[r].priority == s.threads[r].priority
             && d == s.(threads := s.threads[r := d.threads[r]], running := None)
             && (d.threads[r].state.Running? || d.threads[r].state.Ready? || d.threads[r].state.Waiting?)
             && 1 <= d.threads[r].timeQuantum <= s.quantum
             && (if d.threads[r].state.Waiting? then d.threads[r].event < s.io else d.threads[r].event == NO_EVENT)
    ensures Floating(d, s.running.value)
  {
    hide Sorted, NoDuplicates;
    SortedStays(s.queue, s.threads, d.threads);
    assert InPlace(s, s.running.value);
    forall u | 0 <= u < |s.threads| && u != s.running.value ensures InPlace(d, u) { assert InPlace(s, u); }
  }

  /** Queueing the descheduled thread hands over to the front, which exists if that thread does not wait. */
  lemma YieldHandsOver(s: Sched, d: Sched)
    requires s.running.Some? && Floating(d, s.running.value) && !d.threads[s.running.value].state.Waiting?
    ensures var r := s.running.value;
            var o := ScheduleThread(d, r);
            Inv(o.sched) && SameEnds(d.threads, o.sched.threads) && o.overtaken == []
            && HandsOver(s, Outcome(o.sched, o.acts + [Wait(r)], o.overtaken))
  {
    var r := s.running.value;
    ScheduleIdle(d, r);
    QueuedReady(d, r);
    FrontExists(Queued(d, r), r);
  }

  lemma QueuedReady(s: Sched, t: Tid)
    requires Wf(s) && t < |s.threads| && !s.threads[t].state.Waiting?
    ensures var q := Queued(s, t); t in q.queue && |q.threads| == |s.threads| && q.threads[t].state.Ready?
  {
    InsertMembers(s.queue, t, s.threads);
  }

  /** `so_wait`: the thread waits, and somebody else runs. */
  lemma WaitKeepsInv(s: Sched, io: nat)
    requires Inv(s)
    ensures var o := WaitFor(s, io);
            && Inv(o.out.sched) && SameEnds(s.threads, o.out.sched.threads) && o.out.overtaken == []
            && (o.value == -1 <==> io >= s.io || s.running.None? || Front(s.queue, s.threads).None?)
            && (o.value == -1 ==> o.out == Quiet(s))
            && (o.value != -1 ==> o.value == 0 && HandsOver(s, o.out) && o.out.acts != []
                                  && o.out.sched.running == Front(s.queue, s.threads)
                                  && o.out.sched.threads[s.running.value].state.Waiting?
                                  && o.out.sched.threads[s.running.value].event == io)
  {
    hide Insert, FrontIndex, Sorted, NoDuplicates, InPlace, Floating, EventsMatch, HasTime, Fair;
    WaitingEvent(s);
    if !(io >= s.io || s.running.None? || s.queue == [] || Front(s.queue, s.threads).None?) {
      var r := s.running.value;
      var d := s.(threads := s.threads[r := s.threads[r].(state := Waiting, event := io)], running := None);
      Descheduled(s, d);
      ScheduleIdle(d, r);
      FrontOfWaiter(s, d, r);
    } else if s.queue == [] {
      FrontOfNothing(s);
    }
  }

  lemma WaitingEvent(s: Sched)
    requires Inv(s)
    ensures Wf(s)
    ensures s.running.Some? ==> s.running.value !in s.queue && s.threads[s.running.value].state.Running?
                                && 1 <= s.threads[s.running.value].timeQuantum <= s.quantum
  {
    if s.running.Some? { assert InPlace(s, s.running.value); }
  }

  lemma FrontOfNothing(s: Sched)
    requires Inv(s) && s.queue == []
    ensures Front(s.queue, s.threads).None?
  {
  }

  /** A waiting thread in the queue does not change its front. */
  lemma FrontOfWaiter(s: Sched, d: Sched, r: Tid)
    requires Wf(s) && Wf(d) && r < |s.threads| == |d.threads| && r !in s.queue
    requires d.queue == s.queue && d.threads == s.threads[r := d.threads[r]] && d.threads[r].state.Waiting?
    ensures var q := Queued(d, r);
            && Front(q.queue, q.threads) == Front(s.queue, s.threads)
            && |q.threads| == |s.threads| && q.threads[r] == d.threads[r]
            && (Front(q.queue, q.threads).Some? ==> Front(q.queue, q.threads).value != r)
  {
    FrontSkipsWaiter(d.queue, r, d.threads);
    FrontStays(s.queue, s.threads, d.threads);
  }

  /** The scheduler with the waiters of `io` woken. */
  function Woken(s: Sched, io: nat): Sched { s.(threads := Wake(s.threads, s.queue, io)) }

  lemma WakeInPlace(s: Sched, io: nat, u: Tid)
    requires Inv(s) && io < s.io && u < |s.threads|
    ensures InPlace(Woken(s, io), u)
  {
    assert InPlace(s, u);
  }

  /** `so_signal`: exactly the threads that wait for `io` are woken, in their queue positions, and counted; then
      the caller yields. */
  lemma SignalKeepsInv(s: Sched, io: nat)
    requires Inv(s)
    ensures var o := Signal(s, io);
            && Inv(o.out.sched) && SameEnds(s.threads, o.out.sched.threads) && o.out.overtaken == []
            && (o.value == -1 <==> io >= s.io || s.running.None?)
            && (o.value == -1 ==> o.out == Quiet(s))
            && (o.value != -1 ==> HandsOver(s, o.out) && o.out.acts != []
                                  && o.value == Waiters(s.threads, s.queue, io))
  {
    if !(io >= s.io || s.running.None?) {
      var r := s.running.value;
      var d := Woken(s, io).(running := None);
      WokenFloats(s, io);
      YieldHandsOver(s, d);
    }
  }

  lemma WokenFloats(s: Sched, io: nat)
    requires Inv(s) && io < s.io && s.running.Some?
    ensures var d := Woken(s, io).(running := None);
            && Floating(d, s.running.value) && d.threads[s.running.value] == s.threads[s.running.value]
            && !d.threads[s.running.value].state.Waiting?
  {
    var r := s.running.value;
    var d := Woken(s, io).(running := None);
    assert InPlace(s, r);
    hide Sorted, NoDuplicates;
    SortedStays(s.queue, s.threads, d.threads);
    forall u | 0 <= u < |s.threads| && u != r ensures InPlace(d, u) {
      WakeInPlace(s, io, u);
      assert InPlace(s, u);
    }
  }

  /** Every waiting thread is in the queue once, so counting in the queue counts the waiting threads. */
  lemma {:induction false} WaitersAreCounted(ts: seq<Thread>, q: seq<Tid>, io: nat)
    requires InRange(q, ts) && NoDuplicates(q)
    ensures Waiters(ts, q, io) == |set t | t in q && ts[t].event == io|
    decreases |q|
  {
    var w := set t | t in q && ts[t].event == io;
    if q == [] {
      assert w == {};
    } else {
      WaitersAreCounted(ts, q[1..], io);
      var v := set t | t in q[1..] && ts[t].event == io;
      assert q[0] !in q[1..];
      assert forall t :: t in q <==> t == q[0] || t in q[1..];
      if ts[q[0]].event == io {
        assert w == v + {q[0]};
      } else {
        assert w == v;
      }
    }
  }

  /** The number `so_signal` returns is the number of threads that wait for the event, and afterwards exactly these
      have become ready. */
  lemma SignalWakesExactly(s: Sched, io: nat)
    requires Inv(s) && io < s.io && s.running.Some?
    ensures var waiting := set t | 0 <= t < |s.threads| && s.threads[t].state.Waiting? && s.threads[t].event == io;
            && Signal(s, io).value == |waiting|
            && forall t :: 0 <= t < |s.threads| ==>
                 Wake(s.threads, s.queue, io)[t]
                 == (if t in waiting then s.threads[t].(state := Ready, event := NO_EVENT) else s.threads[t])
  {
    hide Wake, Signal, Waiters, Sorted, NoDuplicates, Placed, EventsMatch, HasTime, Fair;
    var waiting := set t | 0 <= t < |s.threads| && s.threads[t].state.Waiting? && s.threads[t].event == io;
    assert NoDuplicates(s.queue) by { Distinct(s); }
    WaitersAreCounted(s.threads, s.queue, io);
    SignalCounts(s, io);
    forall t | 0 <= t < |s.threads|
      ensures t in waiting <==> t in s.queue && s.threads[t].event == io
    {
      WaitsInQueue(s, t, io);
    }
    assert waiting == set t | t in s.queue && s.threads[t].event == io;
  }

  lemma Distinct(s: Sched)
    requires Inv(s)
    ensures NoDuplicates(s.queue)
  {
  }

  lemma SignalCounts(s: Sched, io: nat)
    requires Inv(s) && io < s.io && s.running.Some?
    ensures Signal(s, io).value == Waiters(s.threads, s.queue, io)
  {
    hide ScheduleThread;
  }

  lemma WaitsInQueue(s: Sched, t: Tid, io: nat)
    requires Inv(s) && io < s.io && t < |s.threads|
    ensures s.threads[t].state.Waiting? && s.threads[t].event == io <==> t in s.queue && s.threads[t].event == io
  {
    assert InPlace(s, t);
  }

  /** Nobody waits for the event any more, and all other waiting threads still wait, for what they waited for. */
  predicate OnlyWoke(ts: seq<Thread>, us: seq<Thread>, io: nat) {
    && |us| == |ts|
    && forall t :: 0 <= t < |ts| ==>
         && (us[t].state.Waiting? <==> ts[t].state.Waiting? && ts[t].event != io)
         && (us[t].state.Waiting? ==> us[t].event == ts[t].event)
  }

  /** The threads that stay queued keep their order. */
  ghost predicate OrderKept(s: Sched, after: Sched) {
    forall u: Tid, v: Tid :: Before(s.queue, u, v) && after.running != Some(u) && after.running != Some(v)
                             ==> Before(after.queue, u, v)
  }

  /** What `so_signal` does to the waiting threads and to the queue. */
  lemma SignalOutcome(s: Sched, io: nat)
    requires Inv(s) && io < s.io && s.running.Some?
    ensures var after := Signal(s, io).out.sched;
            OnlyWoke(s.threads, after.threads, io) && OrderKept(s, after)
  {
    hide Inv, Insert, FrontIndex, Floating, Settled, Wake, Waiters, Dequeue, ScheduleThread, Before, Queued, Promote;
    RunnerInRange(s);
    var r, d := s.running.value, Woken(s, io).(running := None);
    WokenFloats(s, io);
    FrontIsPromoted(d, r);
    var after := ScheduleThread(d, r).sched;
    assert after == Signal(s, io).out.sched;
    forall t | 0 <= t < |s.threads|
      ensures after.threads[t].state.Waiting? <==> s.threads[t].state.Waiting? && s.threads[t].event != io
      ensures after.threads[t].state.Waiting? ==> after.threads[t].event == s.threads[t].event
    {
      WakesWaiter(s, io, t);
      StillWaits(d, r, t);
    }
    forall u: Tid, v: Tid | Before(s.queue, u, v) && after.running != Some(u) && after.running != Some(v)
      ensures Before(after.queue, u, v)
    {
      PromotedOrder(d, r, u, v);
    }
  }

  lemma RunnerInRange(s: Sched)
    requires Inv(s) && s.running.Some?
    ensures Wf(s) && s.running.value < |s.threads|
  {
  }

  lemma StillWaits(d: Sched, r: Tid, t: Tid)
    requires Floating(d, r) && !d.threads[r].state.Waiting? && t < |d.threads|
    ensures var u := ScheduleThread(d, r).sched.threads[t];
            (u.state.Waiting? <==> d.threads[t].state.Waiting?) && (u.state.Waiting? ==> u == d.threads[t])
  {
    hide ScheduleThread, Insert, FrontIndex, Dequeue;
    FrontIsPromoted(d, r);
  }

  lemma PromotedOrder(d: Sched, r: Tid, u: Tid, v: Tid)
    requires Floating(d, r) && !d.threads[r].state.Waiting? && Before(d.queue, u, v)
    requires var running := ScheduleThread(d, r).sched.running; running != Some(u) && running != Some(v)
    ensures Before(ScheduleThread(d, r).sched.queue, u, v)
  {
    hide ScheduleThread, Insert, FrontIndex, Dequeue, Before, Sorted, NoDuplicates, InPlace;
    FrontIsPromoted(d, r);
    var q := Queued(d, r);
    InsertKeepsOrder(d.queue, r, d.threads, u, v);
    SamePlaces(d, r, u, v);
    DequeueKeepsOrder(q.queue, q.threads, u, v);
  }

  lemma SamePlaces(d: Sched, r: Tid, u: Tid, v: Tid)
    requires Wf(d) && r < |d.threads|
    ensures Queued(d, r).queue == Insert(d.queue, r, d.threads)
  {
  }

  lemma WakesWaiter(s: Sched, io: nat, t: Tid)
    requires Inv(s) && io < s.io && t < |s.threads|
    ensures var w := Woken(s, io).threads[t];
            && (w.state.Waiting? <==> s.threads[t].state.Waiting? && s.threads[t].event != io)
            && w.priority == s.threads[t].priority && (w.state.Waiting? ==> w == s.threads[t])
  {
    assert InPlace(s, t);
  }

  /** Queueing a thread that does not wait schedules the front, which does not wait either. */
  lemma FrontIsPromoted(d: Sched, r: Tid)
    requires Floating(d, r) && !d.threads[r].state.Waiting?
    ensures var q, o := Queued(d, r), ScheduleThread(d, r);
            && Front(q.queue, q.threads).Some? && Front(q.queue, q.threads).value < |q.threads|
            && !q.threads[Front(q.queue, q.threads).value].state.Waiting?
            && o.sched == Promote(q, Front(q.queue, q.threads).value)
  {
    ScheduleIdle(d, r);
    QueuedReady(d, r);
    FrontExists(Queued(d, r), r);
    FrontIsHighest(Queued(d, r).queue, Queued(d, r).threads);
  }

  /** `thread_task` after the handler: the thread is gone, and the front runs if there is one. */
  lemma ExitKeepsInv(s: Sched)
    requires Inv(s) && s.running.Some?
    ensures var o := Exit(s, s.running.value);
            && Inv(o.sched) && o.overtaken == []
            && SameEnds(s.threads[s.running.value := s.threads[s.running.value].(state := Terminated)], o.sched.threads)
            && o.sched.running == Front(s.queue, s.threads)
            && o.acts == (if o.sched.running.Some? then [Post(o.sched.running.value)] else [])
            && o.sched.threads[s.running.value].state.Terminated?
  {
    var r := s.running.value;
    assert InPlace(s, r);
    var d := SetState(s, r, Terminated).(running := None);
    assert Settled(d) by {
      hide Sorted, NoDuplicates;
      SortedStays(s.queue, s.threads, d.threads);
      forall u | 0 <= u < |s.threads| ensures InPlace(d, u) { assert InPlace(s, u); }
    }
    FrontStays(s.queue, s.threads, d.threads);
    CheckIdle(d);
    FrontIsHighest(s.queue, s.threads);
  }

  // ---------------------------------------------------------------- so_fork

  /** The scheduler with one more thread, queued and ready. */
  function WithThread(s: Sched, priority: nat): Sched
    requires Wf(s) && priority <= SO_MAX_PRIO
  {
    Queued(s.(threads := s.threads + [Thread(priority, New, s.quantum, NO_EVENT)]), |s.threads|)
  }

  /** All of the invariant but fairness holds with the new thread queued. */
  lemma NewThreadQueued(s: Sched, priority: nat)
    requires Inv(s) && priority <= SO_MAX_PRIO
    ensures var d, t := WithThread(s, priority), |s.threads|;
            && Wf(d) && Sorted(d.queue, d.threads) && Placed(d) && EventsMatch(d) && HasTime(d)
            && d.running == s.running && |d.threads| == t + 1 && t in d.queue
            && d.threads[t] == Thread(priority, Ready, s.quantum, NO_EVENT)
            && forall u :: 0 <= u < t ==> d.threads[u] == s.threads[u]
  {
    hide Insert, Sorted, NoDuplicates;
    var t := |s.threads|;
    var c := s.(threads := s.threads + [Thread(priority, New, s.quantum, NO_EVENT)]);
    SortedStays(s.queue, s.threads, c.threads);
    InsertKeepsSorted(s.queue, t, c.threads);
    InsertKeepsDistinct(s.queue, t, c.threads);
    InsertMembers(s.queue, t, c.threads);
    var d := WithThread(s, priority);
    SortedStays(d.queue, c.threads, d.threads);
    forall u | 0 <= u < |d.threads| ensures InPlace(d, u) {
      if u < t { assert InPlace(s, u); }
    }
  }

  /** With nobody running, the new thread is the only ready one and runs at once. */
  lemma ForkIdle(s: Sched, priority: nat)
    requires Inv(s) && s.running.None? && priority <= SO_MAX_PRIO
    ensures var o := Fork(s, true, priority).0;
            && Inv(o.sched) && SameEnds(s.threads, o.sched.threads) && o.overtaken == []
               && o.sched.running == Some(|s.threads|) && o.acts == [Post(|s.threads|)]
            && o.sched.threads[|s.threads|].priority == priority
  {
    hide Settled, Promote, Insert, FrontIndex, Sorted, NoDuplicates, EventsMatch, HasTime, Fair;
    NewThreadQueued(s, priority);
    var d, t := WithThread(s, priority), |s.threads|;
    IsSettled(d);
    CheckIdle(d);
    FrontIsHighest(d.queue, d.threads);
    OnlyReady(s);
    var f := Front(d.queue, d.threads).value;
    assert InPlace(d, f) && (f < t ==> InPlace(s, f));
  }

  lemma IsSettled(d: Sched)
    requires Wf(d) && Sorted(d.queue, d.threads) && Placed(d) && EventsMatch(d) && HasTime(d) && d.running.None?
    ensures Settled(d)
  {
  }

  lemma OnlyReady(s: Sched)
    requires Inv(s) && s.running.None?
    ensures forall u :: u in s.queue ==> u < |s.threads| && s.threads[u].state.Waiting?
  {
    forall u | u in s.queue ensures u < |s.threads| && s.threads[u].state.Waiting? {
      assert InPlace(s, u);
    }
  }

  /** By fairness, only the new thread can have a higher priority than the running one. */
  lemma FrontAfterFork(s: Sched, priority: nat)
    requires Inv(s) && s.running.Some? && priority <= SO_MAX_PRIO
    ensures var d, t, r := WithThread(s, priority), |s.threads|, s.running.value;
            var f := Front(d.queue, d.threads);
            && f.Some? && f.value < |d.threads| && d.threads[r] == s.threads[r]
            && (priority > s.threads[r].priority ==> f.value == t)
            && (priority <= s.threads[r].priority ==> d.threads[f.value].priority <= s.threads[r].priority && Inv(d))
  {
    NewThreadQueued(s, priority);
    var d, t, r := WithThread(s, priority), |s.threads|, s.running.value;
    hide WithThread, Sorted, NoDuplicates, FrontIndex;
    FrontIsHighest(d.queue, d.threads);
    forall u | u in d.queue && !d.threads[u].state.Waiting? && u != t
      ensures d.threads[u].priority <= s.threads[r].priority
    {
      assert InPlace(d, u);
      assert s.threads[u].state.Ready?;
    }
    assert InPlace(d, t);
  }

  /** The new thread does not overtake the running one: it queues up, and one unit of time is used. */
  lemma ForkBehind(s: Sched, priority: nat)
    requires Inv(s) && s.running.Some? && priority <= s.threads[s.running.value].priority
    ensures var o := Fork(s, true, priority).0;
            && o == Exec(WithThread(s, priority)) && Inv(o.sched) && SameEnds(s.threads, o.sched.threads)
               && HandsOver(s, o) && o.overtaken == []
  {
    hide Insert, FrontIndex, Sorted, NoDuplicates, EventsMatch, HasTime, Fair, Placed, Exec;
    LegalPriority(s);
    NewThreadQueued(s, priority);
    FrontAfterFork(s, priority);
    var d, t := WithThread(s, priority), |s.threads|;
    ExecKeepsInv(d);
    ForkIsCheck(s, priority);
    assert CheckPreempt(d, Front(d.queue, d.threads)) == Exec(d);
  }

  lemma ForkIsCheck(s: Sched, priority: nat)
    requires Wf(s) && priority <= SO_MAX_PRIO
    ensures var d := WithThread(s, priority);
            && (Front(d.queue, d.threads).Some? ==> Front(d.queue, d.threads).value < |d.threads|)
            && Fork(s, true, priority).0 == CheckPreempt(d, Front(d.queue, d.threads))
  {
    hide Insert, CheckPreempt;
  }

  lemma LegalPriority(s: Sched)
    requires Inv(s) && s.running.Some?
    ensures s.running.value < |s.threads| && s.threads[s.running.value].priority <= SO_MAX_PRIO
  {
  }

  /** The scheduler with the new thread running and the old one queued again. */
  function Overtaken(s: Sched, priority: nat): Sched
    requires Wf(s) && priority <= SO_MAX_PRIO && s.running.Some?
  {
    Queued(Promote(WithThread(s, priority), |s.threads|), s.running.value)
  }

  /** The new thread is scheduled; the old one is between its places. */
  lemma NewThreadRuns(s: Sched, priority: nat)
    requires Inv(s) && s.running.Some? && s.threads[s.running.value].priority < priority <= SO_MAX_PRIO
    ensures var d, t, r := WithThread(s, priority), |s.threads|, s.running.value;
            var p := Promote(d, t);
            && Sorted(p.queue, p.threads) && NoDuplicates(p.queue) && EventsMatch(p) && HasTime(p)
            && |p.threads| == t + 1 && p.quantum == s.quantum && p.threads[t].timeQuantum == s.quantum
            && p.threads[t].priority == priority && p.threads[r] == s.threads[r]
            && r !in p.queue && !s.threads[r].state.Terminated? && !s.threads[r].state.Waiting?
            && (forall u :: 0 <= u < |p.threads| && u != r ==> InPlace(p, u))
            && (forall u :: 0 <= u < t && u != r ==> p.threads[u] == s.threads[u])
  {
    hide Insert, Dequeue, FrontIndex, Sorted, NoDuplicates;
    NewThreadQueued(s, priority);
    FrontAfterFork(s, priority);
    var d, t, r := WithThread(s, priority), |s.threads|, s.running.value;
    hide WithThread;
    var p := Promote(d, t);
    DequeueMembers(d.queue, d.threads);
    DequeueKeepsSorted(d.queue, d.threads);
    SortedStays(p.queue, d.threads, p.threads);
    assert InPlace(d, r) && InPlace(d, t) && InPlace(s, r);
    forall u | 0 <= u < |p.threads| && u != r ensures InPlace(p, u) {
      assert InPlace(d, u);
    }
  }

  /** A thread that was overtaken queues up under the thread `t` that overtook it. */
  lemma RequeuedIsFair(p: Sched, r: Tid, t: Tid)
    requires Wf(p) && Sorted(p.queue, p.threads) && NoDuplicates(p.queue) && EventsMatch(p) && HasTime(p)
    requires p.running == Some(t) && t != r && r < |p.threads| && r !in p.queue
    requires !p.threads[r].state.Terminated? && !p.threads[r].state.Waiting?
    requires forall u :: 0 <= u < |p.threads| && u != r ==> InPlace(p, u)
    requires forall u :: 0 <= u < |p.threads| && u != r && p.threads[u].state.Ready?
                         ==> p.threads[u].priority <= p.threads[r].priority
    requires p.threads[r].priority < p.threads[t].priority
    ensures var e := Queued(p, r);
            && Inv(e) && r in e.queue && e.threads[r].state.Ready?
            && forall u :: 0 <= u < |e.threads| && e.threads[u].state.Ready? ==>
                 e.threads[u].priority <= p.threads[r].priority
  {
    hide Insert, Sorted, NoDuplicates, InPlace;
    InsertMembers(p.queue, r, p.threads);
    InsertKeepsSorted(p.queue, r, p.threads);
    InsertKeepsDistinct(p.queue, r, p.threads);
    var e := Queued(p, r);
    SortedStays(e.queue, p.threads, e.threads);
    forall u | 0 <= u < |e.threads| ensures InPlace(e, u) {
      QueuedInPlace(p, r, u);
    }
  }

  lemma OvertakenIsFair(s: Sched, priority: nat)
    requires Inv(s) && s.running.Some? && s.threads[s.running.value].priority < priority <= SO_MAX_PRIO
    ensures var e, t, r := Overtaken(s, priority), |s.threads|, s.running.value;
            && Inv(e) && SameEnds(s.threads, e.threads)
            && e.running == Some(t) && e.threads[t].timeQuantum == s.quantum && e.quantum == s.quantum
            && Front(e.queue, e.threads).Some? && Front(e.queue, e.threads).value < |e.threads|
            && e.threads[Front(e.queue, e.threads).value].priority <= s.threads[r].priority < e.threads[t].priority
            && |e.threads| == t + 1
  {
    hide Insert, FrontIndex, Sorted, NoDuplicates;
    NewThreadRuns(s, priority);
    var t, r := |s.threads|, s.running.value;
    var p := Promote(WithThread(s, priority), t);
    assert InPlace(p, t);
    hide WithThread, Promote, EventsMatch, HasTime;
    RequeuedIsFair(p, r, t);
    var e := Queued(p, r);
    FrontIsReady(e, r);
  }

  lemma FrontIsReady(e: Sched, r: Tid)
    requires Inv(e) && r in e.queue && r < |e.threads| && e.threads[r].state.Ready?
    ensures var f := Front(e.queue, e.threads);
            f.Some? && f.value < |e.threads| && e.threads[f.value].state.Ready?
  {
    FrontIsHighest(e.queue, e.threads);
    assert InPlace(e, Front(e.queue, e.threads).value);
  }

  /** The new thread overtakes the running one, which waits on its own semaphore. The time the call takes is
      charged to the new thread, so that a quantum of one is already used up. */
  lemma ForkAhead(s: Sched, priority: nat)
    requires Inv(s) && s.running.Some? && s.threads[s.running.value].priority < priority <= SO_MAX_PRIO
    ensures var o := Fork(s, true, priority).0;
            var e := Exec(Overtaken(s, priority));
            && Inv(o.sched) && SameEnds(s.threads, o.sched.threads) && o.overtaken == [(s.running.value, |s.threads|)]
            && o.sched == e.sched
            && o.acts == [Post(|s.threads|)] + e.acts + [Wait(s.running.value)]
            && (s.quantum >= 2 ==> o.acts == [Post(|s.threads|), Wait(s.running.value)]
                                   && o.sched.running == Some(|s.threads|))
  {
    NewThreadQueued(s, priority);
    FrontAfterFork(s, priority);
    OvertakenIsFair(s, priority);
    ExecKeepsInv(Overtaken(s, priority));
    hide Insert, Dequeue, FrontIndex, Sorted, NoDuplicates, EventsMatch, HasTime, Fair, Placed, Inv;
    var d, t, r := WithThread(s, priority), |s.threads|, s.running.value;
    var p := Promote(d, t);
    StaysReady(s, d, t, r);
    var e := Overtaken(s, priority);
    assert ScheduleThread(p, r) == CheckPreempt(e, Front(e.queue, e.threads));
    assert CheckPreempt(e, Front(e.queue, e.threads)) == Exec(e);
    assert CheckPreempt(d, Front(d.queue, d.threads)).sched == Exec(e).sched;
  }

  lemma StaysReady(s: Sched, d: Sched, t: Tid, r: Tid)
    requires Wf(d) && r < |s.threads| && t == |s.threads| && |d.threads| == t + 1 && d.threads[r] == s.threads[r]
    ensures Promote(d, t).threads[r] == s.threads[r]
  {
  }

  /** With a quantum of one the new thread has no time left at once: it yields to itself, and it is the caller
      that waits on the new thread's semaphore for it. */
  lemma ForkAheadShort(s: Sched, priority: nat)
    requires Inv(s) && s.running.Some? && s.threads[s.running.value].priority < priority <= SO_MAX_PRIO
    requires s.quantum == 1
    ensures var o, t := Fork(s, true, priority).0, |s.threads|;
            && o.acts == [Post(t), Post(t), Wait(t), Wait(s.running.value)]
            && o.sched.running == Some(t)
  {
    ForkAhead(s, priority);
    OvertakenIsFair(s, priority);
    var e, t := Overtaken(s, priority), |s.threads|;
    hide Overtaken, Fork;
    HighestYieldsToItself(e, t);
  }

  lemma HighestYieldsToItself(e: Sched, t: Tid)
    requires Inv(e) && e.running == Some(t) && e.threads[t].timeQuantum == 1
    requires Front(e.queue, e.threads).Some?
             ==> e.threads[Front(e.queue, e.threads).value].priority < e.threads[t].priority
    ensures var o := Exec(e); o.acts == [Post(t), Wait(t)] && o.sched.running == Some(t)
  {
    assert InPlace(e, t);
    var d := e.(threads := e.threads[t := e.threads[t].(timeQuantum := e.quantum, state := Ready)], running := None);
    Descheduled(e, d);
    ScheduleIdle(d, t);
    FrontIsHighest(e.queue, e.threads);
    hide Inv, Floating;
    NewFront(e, d, t);
  }

  /** A thread of higher priority than all that are ready becomes the front. */
  lemma NewFront(e: Sched, d: Sched, t: Tid)
    requires Wf(e) && Wf(d) && t < |e.threads| == |d.threads| && d.queue == e.queue && t !in e.queue
    requires d.threads == e.threads[t := d.threads[t]] && d.threads[t].state.Ready?
    requires d.threads[t].priority == e.threads[t].priority
    requires Sorted(e.queue, e.threads)
    requires forall x :: x in e.queue && x < |e.threads| && !e.threads[x].state.Waiting? ==>
               e.threads[x].priority < e.threads[t].priority
    ensures var q := Queued(d, t); Front(q.queue, q.threads) == Some(t)
  {
    var q := Queued(d, t);
    SortedStays(d.queue, e.threads, d.threads);
    InsertMembers(d.queue, t, d.threads);
    InsertKeepsSorted(d.queue, t, d.threads);
    SortedStays(q.queue, d.threads, q.threads);
    hide Insert, Sorted, FrontIndex;
    assert t in q.queue && q.threads[t].state.Ready?;
    assert forall x :: x in e.queue ==> q.threads[x] == e.threads[x];
    FrontIsHighest(q.queue, q.threads);
  }
}
