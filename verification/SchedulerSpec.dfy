/** The library calls of the thread scheduler as functions: the scheduler after the call, and the semaphore
    operations that the calling thread performs. */
module SchedulerSpec {
  import opened Options
  import opened ReadyQueue

  const SO_MAX_PRIO: nat := 5
  const SO_MAX_NUM_EVENTS: nat := 256

  /** The events are unsigned: -1 is the largest of them. */
  const NO_EVENT: nat := 0xFFFF_FFFF

  /** `scheduler_t`; a thread's identifier is its position in `threads`. */
  datatype Sched = Sched(threads: seq<Thread>, queue: seq<Tid>, running: Option<Tid>, quantum: nat, io: nat)

  /** `sem_post` and `sem_wait` on the semaphore of a thread. */
  datatype Action = Post(thread: Tid) | Wait(thread: Tid)

  /** The outcome of a call: `overtaken` lists the threads that were preempted in the second arm of
      `check_preempt`, with the thread that overtook them. */
  datatype Outcome = Outcome(sched: Sched, acts: seq<Action>, overtaken: seq<(Tid, Tid)>)

  /** A call that also returns a number to its caller. */
  datatype Returned = Returned(out: Outcome, value: int)

  /** Positions are in range and priorities are legal. */
  predicate Wf(s: Sched) {
    && InRange(s.queue, s.threads)
    && (s.running.Some? ==> s.running.value < |s.threads|)
    && (forall t :: 0 <= t < |s.threads| ==> s.threads[t].priority <= SO_MAX_PRIO)
  }

  /** What no call changes: the threads there are, their priorities, the quantum and the number of events. */
  predicate Kept(s: Sched, s': Sched) {
    SamePriorities(s.threads, s'.threads) && s'.quantum == s.quantum && s'.io == s.io
  }

  function Quiet(s: Sched): Outcome { Outcome(s, [], []) }

  function SetState(s: Sched, t: Tid, st: ThreadState): Sched
    requires t < |s.threads|
  {
    s.(threads := s.threads[t := s.threads[t].(state := st)])
  }

  /** The front leaves the queue and is scheduled. */
  function Promote(s: Sched, x: Tid): (s': Sched)
    requires Wf(s) && x < |s.threads|
    ensures Wf(s') && s'.running == Some(x)
    ensures |s'.threads| == |s.threads| && s'.threads[x].priority == s.threads[x].priority
  {
    SetState(s.(running := Some(x), queue := Dequeue(s.queue, s.threads)), x, Running)
  }

  /** One unit of time on an unsigned counter. */
  function Tick(q: nat): nat { if q == 0 then 0xFFFF_FFFF else q - 1 }

  /** How much room above the running thread is left; 0 if there is none. */
  function Room(s: Sched): nat
    requires Wf(s)
  {
    match s.running
    case None => 0
    case Some(r) => 1 + (SO_MAX_PRIO - s.threads[r].priority)
  }

  /** `check_preempt`. The mutual recursion ends: every second arm raises the running priority, and `so_exec`
      comes back only with no thread running. */
  function CheckPreempt(s: Sched, thread: Option<Tid>): (o: Outcome)
    requires Wf(s) && (thread.Some? ==> thread.value < |s.threads|)
    ensures Wf(o.sched)
    ensures Kept(s, o.sched) && |o.sched.threads| == |s.threads|
    decreases Room(s), 1
  {
    match thread
    case None => Quiet(s)
    case Some(x) =>
      match s.running
      case None => Outcome(Promote(s, x), [Post(x)], [])
      case Some(r) =>
        if s.threads[r].priority < s.threads[x].priority then
          var o := ScheduleThread(Promote(s, x), r);
          Outcome(o.sched, [Post(x)] + o.acts + [Wait(r)], [(r, x)] + o.overtaken)
        else Exec(s)
  }

  /** `schedule_thread` */
  function ScheduleThread(s: Sched, t: Tid): (o: Outcome)
    requires Wf(s) && t < |s.threads|
    ensures Wf(o.sched)
    ensures Kept(s, o.sched) && |o.sched.threads| == |s.threads|
    decreases Room(s), 2
  {
    var s := s.(queue := Insert(s.queue, t, s.threads));
    var s := if s.threads[t].state.Waiting? then s else SetState(s, t, Ready);
    CheckPreempt(s, Front(s.queue, s.threads))
  }

  /** `so_exec` */
  function Exec(s: Sched): (o: Outcome)
    requires Wf(s)
    ensures Wf(o.sched)
    ensures Kept(s, o.sched) && |o.sched.threads| == |s.threads|
    decreases Room(s), 0
  {
    match s.running
    case None => Quiet(s)
    case Some(r) =>
      var left := Tick(s.threads[r].timeQuantum);
      if left != 0 then Quiet(s.(threads := s.threads[r := s.threads[r].(timeQuantum := left)]))
      else
        var s := s.(threads := s.threads[r := s.threads[r].(timeQuantum := s.quantum, state := Ready)],
                    running := None);
        var o := ScheduleThread(s, r);
        Outcome(o.sched, o.acts + [Wait(r)], o.overtaken)
  }

  /** `so_init`: no thread and nothing queued, or an error. */
  function Init(quantum: nat, io: nat): Option<Sched> {
    if quantum > 0 && io <= SO_MAX_NUM_EVENTS then Some(Sched([], [], None, quantum, io)) else None
  }

  /** `so_fork`: the new thread, or none for a null handler or an illegal priority. */
  function Fork(s: Sched, handler: bool, priority: nat): (r: (Outcome, Option<Tid>))
    requires Wf(s)
    ensures Wf(r.0.sched)
    ensures Kept(s, r.0.sched) && |r.0.sched.threads| == |s.threads| + (if r.1.Some? then 1 else 0)
    ensures r.1.Some? ==> r.0.sched.threads[|s.threads|].priority == priority
  {
    if !handler || priority > SO_MAX_PRIO then (Quiet(s), None)
    else
      var t := |s.threads|;
      var s := s.(threads := s.threads + [Thread(priority, New, s.quantum, NO_EVENT)]);
      (ScheduleThread(s, t), Some(t))
  }

  /** `so_wait`: 0, or -1 for a bad event, without a running thread, or if nobody else could run. */
  function WaitFor(s: Sched, io: nat): (r: Returned)
    requires Wf(s)
    ensures Wf(r.out.sched)
    ensures Kept(s, r.out.sched) && |r.out.sched.threads| == |s.threads|
  {
    if io >= s.io || s.running.None? || s.queue == [] || Front(s.queue, s.threads).None? then Returned(Quiet(s), -1)
    else
      var r := s.running.value;
      var s := s.(threads := s.threads[r := s.threads[r].(state := Waiting, event := io)], running := None);
      var o := ScheduleThread(s, r);
      Returned(Outcome(o.sched, o.acts + [Wait(r)], o.overtaken), 0)
  }

  /** The threads of the queue that wait for `io` become ready where they are. */
  function Wake(ts: seq<Thread>, q: seq<Tid>, io: nat): (us: seq<Thread>)
    ensures |us| == |ts|
    ensures forall t :: 0 <= t < |ts| ==>
      us[t] == (if t in q && ts[t].event == io then ts[t].(state := Ready, event := NO_EVENT) else ts[t])
  {
    seq(|ts|, t requires 0 <= t < |ts| =>
      if t in q && ts[t].event == io then ts[t].(state := Ready, event := NO_EVENT) else ts[t])
  }

  /** The threads of a list that wait for `io`. */
  function Waiters(ts: seq<Thread>, q: seq<Tid>, io: nat): nat
    requires InRange(q, ts)
  {
    if q == [] then 0 else (if ts[q[0]].event == io then 1 else 0) + Waiters(ts, q[1..], io)
  }

  /** `so_signal`: the number of threads woken, or -1. */
  function Signal(s: Sched, io: nat): (r: Returned)
    requires Wf(s)
    ensures Wf(r.out.sched)
    ensures Kept(s, r.out.sched) && |r.out.sched.threads| == |s.threads|
  {
    if io >= s.io || s.running.None? then Returned(Quiet(s), -1)
    else
      var r, n := s.running.value, Waiters(s.threads, s.queue, io);
      var s := s.(threads := Wake(s.threads, s.queue, io), running := None);
      var o := ScheduleThread(s, r);
      Returned(Outcome(o.sched, o.acts + [Wait(r)], o.overtaken), n)
  }

  /** The end of `thread_task` of thread `t`. */
  function Exit(s: Sched, t: Tid): (o: Outcome)
    requires Wf(s) && t < |s.threads|
    ensures Wf(o.sched)
    ensures Kept(s, o.sched) && |o.sched.threads| == |s.threads|
  {
    var s := SetState(s, t, Terminated).(running := None);
    CheckPreempt(s, Front(s.queue, s.threads))
  }
}
