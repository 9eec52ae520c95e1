/** What each library call writes, thread by thread: everything else stays as it was. */
module SchedulerFrames {
  import opened Options
  import opened ReadyQueue
  import opened SchedulerSpec
  import opened SchedulerInvariant

  /** Nothing but the threads, the queue and the running thread may differ. */
  predicate SameSetup(s: Sched, after: Sched) { after.quantum == s.quantum && after.io == s.io }

  /** The queue holds these threads: those of `q` without `gone`, and `come` besides. */
  predicate QueueChanges(q: seq<Tid>, after: seq<Tid>, gone: Option<Tid>, come: Option<Tid>) {
    && (forall t :: t in after ==> (t in q || Some(t) == come) && Some(t) != gone)
    && (forall t :: t in q && Some(t) != gone ==> t in after)
    && (come.Some? && come != gone ==> come.value in after)
  }

  /** Scheduling with nobody running: the thread `t` becomes ready unless it waits, the front starts to run, and no
      other field of any thread changes. */
  lemma ScheduleFrame(d: Sched, t: Tid)
    requires Floating(d, t)
    ensures var after := ScheduleThread(d, t).sched;
            var ts := if d.threads[t].state.Waiting? then d.threads
                      else d.threads[t := d.threads[t].(state := Ready)];
            && SameSetup(d, after)
            && (match after.running
                case None => after.threads == ts
                case Some(x) => x < |ts| && after.threads == ts[x := ts[x].(state := Running)])
            && QueueChanges(d.queue, after.queue, after.running, Some(t))
  {
    hide Insert, Dequeue, FrontIndex, Sorted, NoDuplicates, InPlace, Inv, ScheduleThread;
    ScheduleIdle(d, t);
    var q := Queued(d, t);
    InsertMembers(d.queue, t, d.threads);
    if Front(q.queue, q.threads).Some? {
      DequeueMembers(q.queue, q.threads);
    } else {
      NobodyTaken(d, t);
    }
  }

  lemma NobodyTaken(d: Sched, t: Tid)
    requires Floating(d, t) && Front(Queued(d, t).queue, Queued(d, t).threads).None?
    ensures ScheduleThread(d, t).sched == Queued(d, t)
  {
    hide Insert, Sorted, NoDuplicates, InPlace;
    QueuedSettles(d, t);
    CheckIdle(Queued(d, t));
  }

  // ---------------------------------------------------------------- so_wait, so_signal and the end of a thread

  /** An accepted `so_wait` writes the caller's state and event and the state of the front, which runs next. */
  lemma WaitFrame(s: Sched, io: nat)
    requires Inv(s) && io < s.io && s.running.Some? && Front(s.queue, s.threads).Some?
    ensures var r, x, after := s.running.value, Front(s.queue, s.threads).value, WaitFor(s, io).out.sched;
            && SameSetup(s, after) && after.running == Some(x) && x != r && |after.threads| == |s.threads|
            && (forall t :: 0 <= t < |s.threads| ==>
                  var u := s.threads[t];
                  after.threads[t] == if t == r then Thread(u.priority, Waiting, u.timeQuantum, io)
                                      else if t == x then Thread(u.priority, Running, u.timeQuantum, u.event)
                                      else u)
            && QueueChanges(s.queue, after.queue, Some(x), Some(r))
  {
    hide Insert, Dequeue, FrontIndex, Sorted, NoDuplicates, InPlace, Floating, EventsMatch, HasTime, Fair,
         ScheduleThread;
    WaitKeepsInv(s, io);
    WaitingEvent(s);
    var r := s.running.value;
    var d := s.(threads := s.threads[r := s.threads[r].(state := Waiting, event := io)], running := None);
    Descheduled(s, d);
    ScheduleFrame(d, r);
    ScheduleIdle(d, r);
    FrontOfWaiter(s, d, r);
    NonEmptyQueue(s);
  }

  lemma NonEmptyQueue(s: Sched)
    requires Wf(s) && Front(s.queue, s.threads).Some?
    ensures s.queue != []
  {
  }

  /** An accepted `so_signal` writes the states and events of the threads that wait for the event, the state of the
      caller and that of the thread that runs next. */
  lemma SignalFrame(s: Sched, io: nat)
    requires Inv(s) && io < s.io && s.running.Some?
    ensures var r, after := s.running.value, Signal(s, io).out.sched;
            && SameSetup(s, after) && after.running.Some? && |after.threads| == |s.threads|
            && (forall t :: 0 <= t < |s.threads| ==>
                  var u := s.threads[t];
                  var woken := u.state.Waiting? && u.event == io;
                  && after.threads[t].priority == u.priority && after.threads[t].timeQuantum == u.timeQuantum
                  && after.threads[t].event == (if woken then 4294967295 else u.event)
                  && after.threads[t].state == (if Some(t) == after.running then Running
                                                else if t == r || woken then Ready else u.state))
            && QueueChanges(s.queue, after.queue, after.running, Some(r))
  {
    hide Insert, Dequeue, FrontIndex, Sorted, NoDuplicates, Floating, Settled, InPlace, Wake, Waiters, ScheduleThread,
         Inv;
    RunnerInRange(s);
    var r, d := s.running.value, Woken(s, io).(running := None);
    WokenFloats(s, io);
    ScheduleFrame(d, r);
    FrontIsPromoted(d, r);
    forall t | 0 <= t < |s.threads|
      ensures d.threads[t] == if s.threads[t].state.Waiting? && s.threads[t].event == io
                              then s.threads[t].(state := Ready, event := 4294967295) else s.threads[t]
    {
      WakesExactly(s, io, t);
    }
  }

  lemma WakesExactly(s: Sched, io: nat, t: Tid)
    requires Inv(s) && io < s.io && t < |s.threads|
    ensures Woken(s, io).threads[t] == if s.threads[t].state.Waiting? && s.threads[t].event == io
                                       then s.threads[t].(state := Ready, event := 4294967295) else s.threads[t]
  {
    assert InPlace(s, t);
  }

  /** The end of a thread writes its state and that of the thread that runs next. */
  lemma ExitFrame(s: Sched)
    requires Inv(s) && s.running.Some?
    ensures var r, after := s.running.value, Exit(s, s.running.value).sched;
            && SameSetup(s, after) && after.running == Front(s.queue, s.threads) && |after.threads| == |s.threads|
            && after.running != Some(r)
            && (forall t :: 0 <= t < |s.threads| ==>
                  var u := s.threads[t];
                  after.threads[t] == if t == r then u.(state := Terminated)
                                      else if Some(t) == after.running then u.(state := Running) else u)
            && QueueChanges(s.queue, after.queue, after.running, None)
  {
    hide Insert, FrontIndex, Sorted, NoDuplicates, EventsMatch, HasTime, Fair;
    ExitKeepsInv(s);
    var r := s.running.value;
    assert InPlace(s, r);
    var d := SetState(s, r, Terminated).(running := None);
    FrontStays(s.queue, s.threads, d.threads);
    FrontIsHighest(s.queue, s.threads);
    if Front(s.queue, s.threads).Some? { DequeueStays(s, d); }
  }

  lemma DequeueStays(s: Sched, d: Sched)
    requires Wf(s) && Wf(d) && d.queue == s.queue && NoDuplicates(s.queue)
    requires Front(s.queue, s.threads).Some? && Front(d.queue, d.threads) == Front(s.queue, s.threads)
    ensures forall x :: x in Dequeue(d.queue, d.threads) <==> x in s.queue && Some(x) != Front(s.queue, s.threads)
  {
    hide FrontIndex, Dequeue;
    DequeueMembers(d.queue, d.threads);
  }

  // ---------------------------------------------------------------- so_exec

  /** While time is left, `so_exec` writes the caller's remaining quantum and nothing else. */
  lemma ExecFrame(s: Sched)
    requires Inv(s) && s.running.Some? && s.threads[s.running.value].timeQuantum >= 2
    ensures var r := s.running.value;
            var u := s.threads[r];
            Exec(s).sched == s.(threads := s.threads[r := Thread(u.priority, u.state, u.timeQuantum - 1, u.event)])
  {
  }

  /** At the end of the quantum it refills the caller's, and writes the states of the caller and of the thread that runs
      next. */
  lemma ExecEndFrame(s: Sched)
    requires Inv(s) && s.running.Some? && s.threads[s.running.value].timeQuantum == 1
    ensures var r, after := s.running.value, Exec(s).sched;
            && SameSetup(s, after) && after.running.Some? && |after.threads| == |s.threads|
            && (forall t :: 0 <= t < |s.threads| ==>
                  var u := s.threads[t];
                  && after.threads[t].priority == u.priority && after.threads[t].event == u.event
                  && after.threads[t].timeQuantum == (if t == r then s.quantum else u.timeQuantum)
                  && after.threads[t].state == (if Some(t) == after.running then Running
                                                else if t == r then Ready else u.state))
            && QueueChanges(s.queue, after.queue, after.running, Some(r))
  {
    hide Insert, Dequeue, FrontIndex, Sorted, NoDuplicates, Floating, Settled, ScheduleThread;
    var r := s.running.value;
    assert InPlace(s, r);
    var d := s.(threads := s.threads[r := s.threads[r].(timeQuantum := s.quantum, state := Ready)], running := None);
    Descheduled(s, d);
    ScheduleFrame(d, r);
    FrontIsPromoted(d, r);
  }

  // ---------------------------------------------------------------- so_fork and so_init

  /** `so_init` accepts a positive quantum and at most 256 events, and starts with nothing. */
  lemma InitIff(quantum: nat, io: nat)
    ensures Init(quantum, io) == if quantum >= 1 && io <= 256 then Some(Sched([], [], None, quantum, io)) else None
  {
  }

  /** `so_fork` refuses a null handler and a priority above 5, and then does nothing. */
  lemma ForkRefusal(s: Sched, handler: bool, priority: nat)
    requires Wf(s)
    ensures Fork(s, handler, priority).1.None? <==> !handler || priority > 5
    ensures !handler || priority > 5 ==> Fork(s, handler, priority).0 == Quiet(s)
  {
  }

  /** A fork while nobody runs adds the new thread, running, with a full quantum and no event. */
  lemma ForkIdleFrame(s: Sched, priority: nat)
    requires Inv(s) && s.running.None? && priority <= 5
    ensures var after := Fork(s, true, priority).0.sched;
            && SameSetup(s, after) && after.running == Some(|s.threads|)
            && after.threads == s.threads + [Thread(priority, Running, s.quantum, 4294967295)]
            && QueueChanges(s.queue, after.queue, None, None)
  {
    hide Insert, Dequeue, FrontIndex, Sorted, NoDuplicates, Settled, Inv;
    ForkIdle(s, priority);
    var t := |s.threads|;
    var c := s.(threads := s.threads + [Thread(priority, New, s.quantum, NO_EVENT)]);
    NewFloats(s, priority);
    ScheduleFrame(c, t);
    NotQueued(s);
  }

  lemma NewFloats(s: Sched, priority: nat)
    requires Inv(s) && s.running.None? && priority <= 5
    ensures Floating(s.(threads := s.threads + [Thread(priority, New, s.quantum, NO_EVENT)]), |s.threads|)
  {
    hide Sorted, NoDuplicates;
    var c := s.(threads := s.threads + [Thread(priority, New, s.quantum, NO_EVENT)]);
    SortedStays(s.queue, s.threads, c.threads);
    forall u | 0 <= u < |s.threads| ensures InPlace(c, u) { assert InPlace(s, u); }
  }

  lemma NotQueued(s: Sched)
    requires Inv(s)
    ensures |s.threads| !in s.queue
  {
  }

  /** A fork that does not overtake adds the new thread, ready, and then does what `so_exec` does. */
  lemma ForkBehindFrame(s: Sched, priority: nat)
    requires Inv(s) && s.running.Some? && priority <= s.threads[s.running.value].priority
    ensures var d, after := WithThread(s, priority), Fork(s, true, priority).0.sched;
            && Inv(d) && SameSetup(s, d) && d.running == s.running && after == Exec(d).sched
            && d.threads == s.threads + [Thread(priority, Ready, s.quantum, 4294967295)]
            && QueueChanges(s.queue, d.queue, None, Some(|s.threads|))
  {
    hide Insert, FrontIndex, Sorted, NoDuplicates, Inv, Exec;
    LegalPriority(s);
    RunnerInRange(s);
    ForkBehind(s, priority);
    NewThreadQueued(s, priority);
    FrontAfterFork(s, priority);
    NewThreadMembers(s, priority);
    var d := WithThread(s, priority);
    hide WithThread;
    assert d.threads == s.threads + [Thread(priority, Ready, s.quantum, NO_EVENT)];
  }

  lemma NewThreadMembers(s: Sched, priority: nat)
    requires Wf(s) && priority <= 5
    ensures var d := WithThread(s, priority);
            && SameSetup(s, d) && forall x :: x in d.queue <==> x in s.queue || x == |s.threads|
  {
    InsertMembers(s.queue, |s.threads|, s.threads + [Thread(priority, New, s.quantum, NO_EVENT)]);
  }

  /** A fork that overtakes adds the new thread, running, with one unit of its quantum used, and makes the caller
      ready. */
  lemma ForkAheadFrame(s: Sched, priority: nat)
    requires Inv(s) && s.running.Some? && s.threads[s.running.value].priority < priority <= 5 && s.quantum >= 2
    ensures var r, t, after := s.running.value, |s.threads|, Fork(s, true, priority).0.sched;
            && SameSetup(s, after) && after.running == Some(t) && |after.threads| == t + 1
            && after.threads[t] == Thread(priority, Running, s.quantum - 1, 4294967295)
            && (forall u :: 0 <= u < t ==>
                  after.threads[u] == if u == r then s.threads[u].(state := Ready) else s.threads[u])
            && QueueChanges(s.queue, after.queue, None, Some(r))
  {
    hide Insert, Dequeue, FrontIndex, Sorted, NoDuplicates, Inv, Exec;
    RunnerInRange(s);
    ForkAhead(s, priority);
    OvertakenIsFair(s, priority);
    var e, t, r := Overtaken(s, priority), |s.threads|, s.running.value;
    OvertakenFrame(s, priority);
    hide Overtaken;
    ExecFrame(e);
  }

  lemma OvertakenFrame(s: Sched, priority: nat)
    requires Inv(s) && s.running.Some? && s.threads[s.running.value].priority < priority <= 5
    ensures var e, t, r := Overtaken(s, priority), |s.threads|, s.running.value;
            && SameSetup(s, e) && |e.threads| == t + 1
            && e.threads[t] == Thread(priority, Running, s.quantum, 4294967295)
            && (forall u :: 0 <= u < t ==>
                  e.threads[u] == if u == r then s.threads[u].(state := Ready) else s.threads[u])
            && QueueChanges(s.queue, e.queue, None, Some(r))
  {
    hide Insert, Dequeue, FrontIndex, Sorted, NoDuplicates, EventsMatch, HasTime, Inv;
    RunnerInRange(s);
    NewThreadRuns(s, priority);
    NewThreadQueued(s, priority);
    NewThreadMembers(s, priority);
    FrontAfterFork(s, priority);
    NotQueued(s);
    var d, t, r := WithThread(s, priority), |s.threads|, s.running.value;
    DequeueMembers(d.queue, d.threads);
    var p := Promote(d, t);
    InsertMembers(p.queue, r, p.threads);
  }
}
