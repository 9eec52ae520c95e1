/** The scheduler with its fields updated in place. */
module SchedulerClass {
  import opened Options
  import opened ReadyQueue
  import opened PriorityQueueArray
  import opened SchedulerSpec

  /** `scheduler_t`, with the semaphore operations and the preemptions of the calls so far. */
  class Scheduler {
    var pq: PriorityQueue
    var threads: seq<Thread>
    var running: Option<Tid>
    var timeQuantum: nat
    var io: nat
    ghost var acts: seq<Action>
    ghost var overtaken: seq<(Tid, Tid)>

    /** The abstract state. */
    ghost function State(): Sched
      reads this, pq, pq.q
      requires pq.Valid()
    {
      Sched(threads, pq.Contents(), running, timeQuantum, io)
    }

    ghost predicate Valid()
      reads this, pq, pq.q
    {
      pq.Valid() && Wf(State())
    }

    /** What has been done since then. */
    twostate predicate Did(o: Outcome)
      reads this, pq, pq.q
    {
      && Valid() && State() == o.sched && pq == old(pq) && (pq.q == old(pq.q) || fresh(pq.q))
      && acts == old(acts) + o.acts && overtaken == old(overtaken) + o.overtaken
    }

    /** `so_init`, where it succeeds. */
    constructor (timeQuantum: nat, io: nat)
      requires timeQuantum > 0 && io <= SO_MAX_NUM_EVENTS
      ensures Valid() && fresh(pq) && Init(timeQuantum, io) == Some(State())
      ensures acts == [] && overtaken == []
    {
      this.timeQuantum, this.io := timeQuantum, io;
      pq := new PriorityQueue();
      running, threads := None, [];
      acts, overtaken := [], [];
    }

    /** `check_preempt` */
    method CheckPreempt(thread: Option<Tid>)
      requires Valid() && (thread.Some? ==> thread.value < |threads|)
      modifies this, pq, pq.q
      ensures Did(SchedulerSpec.CheckPreempt(old(State()), thread))
      decreases Room(State()), 1
    {
      hide SchedulerSpec.ScheduleThread, SchedulerSpec.Exec, Promote;
      if thread.None? { return; }
      var x := thread.value;
      if running.None? {
        Take(x);
      } else if threads[running.value].priority < threads[x].priority {
        var preempted := running.value;
        overtaken := overtaken + [(preempted, x)];
        Take(x);
        ghost var o := SchedulerSpec.ScheduleThread(State(), preempted);
        ScheduleThread(preempted);
        acts := acts + [Wait(preempted)];
        assert acts == old(acts) + ([Post(x)] + o.acts + [Wait(preempted)]);
        assert overtaken == old(overtaken) + ([(preempted, x)] + o.overtaken);
      } else {
        Exec();
      }
    }

    /** The arms of `check_preempt` that let the front run. */
    method Take(x: Tid)
      requires Valid() && x < |threads|
      modifies this, pq, pq.q
      ensures Did(Outcome(Promote(old(State()), x), [Post(x)], []))
    {
      hide Dequeue, Front;
      running := Some(x);
      var _ := pq.DequeueThread(threads);
      threads := threads[x := threads[x].(state := Running)];
      acts := acts + [Post(x)];
    }

    /** `schedule_thread` */
    method ScheduleThread(t: Tid)
      requires Valid() && t < |threads|
      modifies this, pq, pq.q
      ensures Did(SchedulerSpec.ScheduleThread(old(State()), t))
      decreases Room(State()), 2
    {
      hide SchedulerSpec.CheckPreempt, Insert, FrontIndex;
      pq.Enqueue(t, threads);
      if !threads[t].state.Waiting? {
        threads := threads[t := threads[t].(state := Ready)];
      }
      var f := pq.FrontThread(threads);
      CheckPreempt(f);
    }

    /** `so_exec` */
    method Exec()
      requires Valid()
      modifies this, pq, pq.q
      ensures Did(SchedulerSpec.Exec(old(State())))
      decreases Room(State()), 0
    {
      hide SchedulerSpec.ScheduleThread;
      if running.None? { return; }
      ghost var s := State();
      var r := running.value;
      threads := threads[r := threads[r].(timeQuantum := Tick(threads[r].timeQuantum))];
      if threads[r].timeQuantum == 0 {
        threads := threads[r := threads[r].(timeQuantum := timeQuantum, state := Ready)];
        running := None;
        assert threads == s.threads[r := s.threads[r].(timeQuantum := s.quantum, state := Ready)];
        ghost var o := SchedulerSpec.ScheduleThread(State(), r);
        ScheduleThread(r);
        acts := acts + [Wait(r)];
        assert acts == old(acts) + (o.acts + [Wait(r)]);
      }
    }

    /** `add_thread`: the registry grows by one at its end. */
    method AddThread(t: Thread) returns (tid: Tid)
      requires Valid() && t.priority <= SO_MAX_PRIO
      modifies this`threads
      ensures Valid() && tid == |old(threads)| && State() == old(State()).(threads := old(threads) + [t])
    {
      tid := |threads|;
      threads := threads + [t];
    }

    /** `so_fork`, with `create_thread`. */
    method Fork(handler: bool, priority: nat) returns (tid: Option<Tid>)
      requires Valid()
      modifies this, pq, pq.q
      ensures Did(SchedulerSpec.Fork(old(State()), handler, priority).0)
      ensures tid == SchedulerSpec.Fork(old(State()), handler, priority).1
    {
      hide SchedulerSpec.ScheduleThread;
      if !handler || priority > SO_MAX_PRIO { return None; }
      var thread := Thread(priority, New, timeQuantum, NO_EVENT);
      var t := AddThread(thread);
      ScheduleThread(t);
      return Some(t);
    }

    /** `so_wait` */
    method WaitFor(event: nat) returns (result: int)
      requires Valid()
      modifies this, pq, pq.q
      ensures Did(SchedulerSpec.WaitFor(old(State()), event).out)
      ensures result == SchedulerSpec.WaitFor(old(State()), event).value
    {
      hide SchedulerSpec.ScheduleThread, FrontIndex;
      if event >= io || running.None? || pq.size == 0 { return -1; }
      var f := pq.FrontThread(threads);
      if f.None? { return -1; }
      ghost var s := State();
      var r := running.value;
      threads := threads[r := threads[r].(state := Waiting)];
      threads := threads[r := threads[r].(event := event)];
      running := None;
      assert threads == s.threads[r := s.threads[r].(state := Waiting, event := event)];
      ghost var o := SchedulerSpec.ScheduleThread(State(), r);
      ScheduleThread(r);
      acts := acts + [Wait(r)];
      assert acts == old(acts) + (o.acts + [Wait(r)]);
      return 0;
    }

    /** `so_signal` */
    method Signal(event: nat) returns (result: int)
      requires Valid() && NoDuplicates(pq.Contents())
      modifies this, pq, pq.q
      ensures Did(SchedulerSpec.Signal(old(State()), event).out)
      ensures result == SchedulerSpec.Signal(old(State()), event).value
    {
      hide SchedulerSpec.ScheduleThread, Wake, Waiters;
      if event >= io || running.None? { return -1; }
      ghost var s := State();
      result := WakeWaiters(event);
      var r := running.value;
      running := None;
      ghost var o := SchedulerSpec.ScheduleThread(State(), r);
      ScheduleThread(r);
      acts := acts + [Wait(r)];
      assert acts == old(acts) + (o.acts + [Wait(r)]);
    }

    /** The loop of `so_signal` over the queue. */
    method WakeWaiters(event: nat) returns (n: nat)
      requires Valid() && NoDuplicates(pq.Contents())
      modifies this`threads
      ensures State() == old(State()).(threads := Wake(old(threads), pq.Contents(), event))
      ensures Valid() && n == Waiters(old(threads), pq.Contents(), event)
    {
      hide Wake, Waiters, NoDuplicates;
      ghost var q, ts := pq.Contents(), threads;
      n := 0;
      var i := 0;
      WakeNone(ts, event);
      assert q[..0] == [] && q[0..] == q;
      while i < pq.size
        invariant 0 <= i <= |q|
        invariant threads == Wake(ts, q[..i], event)
        invariant n + Waiters(ts, q[i..], event) == Waiters(ts, q, event)
        modifies this`threads
      {
        WakeMore(ts, q, i, event);
        if threads[pq.q[i]].event == event {
          n := n + 1;
          threads := threads[pq.q[i] := threads[pq.q[i]].(state := Ready, event := NO_EVENT)];
        }
        i := i + 1;
      }
      assert q[..i] == q;
      WaitersMore(ts, q, i, event);
    }

    /** The end of `thread_task` of thread `t`. */
    method Exit(t: Tid)
      requires Valid() && t < |threads|
      modifies this, pq, pq.q
      ensures Did(SchedulerSpec.Exit(old(State()), t))
    {
      hide SchedulerSpec.CheckPreempt, FrontIndex;
      threads := threads[t := threads[t].(state := Terminated)];
      running := None;
      var f := pq.FrontThread(threads);
      CheckPreempt(f);
    }
  }

  lemma WakeNone(ts: seq<Thread>, event: nat)
    ensures Wake(ts, [], event) == ts
  {
  }

  /** One more thread of the queue is woken if it waits for the event. */
  lemma WakeMore(ts: seq<Thread>, q: seq<Tid>, i: nat, event: nat)
    requires InRange(q, ts) && NoDuplicates(q) && i < |q|
    ensures var w, x := Wake(ts, q[..i], event), q[i];
            && |w| == |ts| && w[x] == ts[x]
            && InRange(q[i..], ts) && InRange(q[i + 1..], ts)
            && Waiters(ts, q[i..], event) == (if ts[x].event == event then 1 else 0) + Waiters(ts, q[i + 1..], event)
            && Wake(ts, q[..i + 1], event)
               == (if ts[x].event == event then w[x := ts[x].(state := Ready, event := NO_EVENT)] else w)
  {
    hide Wake;
    WaitersMore(ts, q, i, event);
    assert forall t :: t in q[..i + 1] <==> t in q[..i] || t == q[i];
  }

  lemma WaitersMore(ts: seq<Thread>, q: seq<Tid>, i: nat, event: nat)
    requires InRange(q, ts) && i <= |q|
    ensures InRange(q[i..], ts)
    ensures i < |q| ==> InRange(q[i + 1..], ts)
    ensures Waiters(ts, q[i..], event)
            == if i == |q| then 0 else (if ts[q[i]].event == event then 1 else 0) + Waiters(ts, q[i + 1..], event)
  {
    if i < |q| { assert q[i..][0] == q[i] && q[i..][1..] == q[i + 1..]; }
  }
}
