/** The threads around the scheduler. A library call updates the scheduler at once; its semaphore operations are
    then performed one at a time, interleaved with whatever the other threads can do. */
module SchedulerSystem {
  import opened Options
  import opened ReadyQueue
  import opened SchedulerSpec
  import opened SchedulerInvariant

  /** Semaphore values; for every thread the semaphore operations between it and its own code; and the same for the
      main program. */
  datatype System = System(sched: Sched, sems: seq<nat>, todo: seq<seq<Action>>, main: seq<Action>)

  /** A library call by a thread, or the end of its handler. */
  datatype LibraryCall =
    | ForkCall(handler: bool, priority: nat)
    | WaitCall(io: nat)
    | SignalCall(io: nat)
    | ExecCall
    | ExitCall

  datatype Step =
    | MainForks(priority: nat)               // `so_fork` by the main program
    | MainActs                               // its next semaphore operation
    | Calls(thread: Tid, call: LibraryCall)  // a thread in its own code makes a call
    | Acts(thread: Tid)                      // the next semaphore operation of a thread

  predicate Consistent(m: System) {
    Wf(m.sched) && |m.sems| == |m.todo| == |m.sched.threads|
  }

  /** The thread is in its own code. */
  predicate Executing(m: System, t: Tid)
    requires Consistent(m)
  {
    t < |m.todo| && m.todo[t] == [] && !m.sched.threads[t].state.Terminated?
  }

  /** The first of these operations can be performed: a `sem_wait` needs a positive value. */
  predicate CanAct(m: System, acts: seq<Action>) {
    acts != [] && acts[0].thread < |m.sems| && (acts[0].Wait? ==> m.sems[acts[0].thread] > 0)
  }

  /** Main forks only while no thread is running. */
  predicate Enabled(m: System, st: Step)
    requires Consistent(m)
  {
    match st
    case MainForks(_) => m.main == [] && m.sched.running.None?
    case MainActs => CanAct(m, m.main)
    case Calls(t, _) => Executing(m, t)
    case Acts(t) => t < |m.todo| && CanAct(m, m.todo[t])
  }

  function CallOf(s: Sched, t: Tid, l: LibraryCall): (o: Outcome)
    requires Wf(s) && t < |s.threads|
    ensures Wf(o.sched) && Kept(s, o.sched) && |o.sched.threads| <= |s.threads| + 1
  {
    match l
    case ForkCall(h, p) => Fork(s, h, p).0
    case WaitCall(io) => WaitFor(s, io).out
    case SignalCall(io) => Signal(s, io).out
    case ExecCall => Exec(s)
    case ExitCall => Exit(s, t)
  }

  function Perform(sems: seq<nat>, a: Action): (r: seq<nat>)
    requires a.thread < |sems| && (a.Wait? ==> sems[a.thread] > 0)
    ensures |r| == |sems|
  {
    match a
    case Post(x) => sems[x := sems[x] + 1]
    case Wait(x) => sems[x := sems[x] - 1]
  }

  /** The scheduler moves on; a thread that was created has a semaphore of value 0 and waits on it first. */
  function Update(m: System, s: Sched): (m': System)
    requires Consistent(m) && Wf(s) && |m.sched.threads| <= |s.threads| <= |m.sched.threads| + 1
    ensures Consistent(m')
  {
    if |s.threads| == |m.sched.threads| then m.(sched := s)
    else m.(sched := s, sems := m.sems + [0], todo := m.todo + [[Wait(|m.todo|)]])
  }

  function Next(m: System, st: Step): (m': System)
    requires Consistent(m) && Enabled(m, st)
    ensures Consistent(m')
  {
    match st
    case MainForks(p) =>
      var o := Fork(m.sched, true, p).0;
      Update(m, o.sched).(main := o.acts)
    case MainActs => m.(sems := Perform(m.sems, m.main[0]), main := m.main[1..])
    case Calls(t, l) =>
      var o := CallOf(m.sched, t, l);
      var m := Update(m, o.sched);
      m.(todo := m.todo[t := o.acts])
    case Acts(t) => m.(sems := Perform(m.sems, m.todo[t][0]), todo := m.todo[t := m.todo[t][1..]])
  }

  /** `m'` is reached from `m` by these steps. */
  predicate Run(m: System, sts: seq<Step>, m': System)
    requires Consistent(m)
    decreases |sts|
  {
    if sts == [] then m' == m
    else Enabled(m, sts[0]) && Run(Next(m, sts[0]), sts[1..], m')
  }

  // ---------------------------------------------------------------- what one call does

  /** The fork puts a thread of higher priority in front of its caller. */
  predicate Overtakes(s: Sched, l: LibraryCall)
    requires Wf(s)
  {
    && l.ForkCall? && l.handler && l.priority <= SO_MAX_PRIO
    && s.running.Some? && s.threads[s.running.value].priority < l.priority
  }

  /** Which threads have ended after the call. */
  function Ended(s: Sched, l: LibraryCall): seq<Thread>
    requires Wf(s) && s.running.Some?
  {
    var r := s.running.value;
    if l.ExitCall? then s.threads[r := s.threads[r].(state := Terminated)] else s.threads
  }

  /** One call of the running thread `r` keeps the invariant and hands over from `r` to the thread that runs next. The
      second arm of `check_preempt` is taken for a freshly forked thread and for no other. With a quantum of one,
      such a fork makes `r` wait on the semaphore of the new thread. */
  lemma CallKeepsInv(s: Sched, l: LibraryCall)
    requires Inv(s) && s.running.Some?
    ensures var o, r := CallOf(s, s.running.value, l), s.running.value;
            && Inv(o.sched) && SameEnds(Ended(s, l), o.sched.threads)
            && (if l.ExitCall? then
                  o.acts == (if o.sched.running.Some? then [Post(o.sched.running.value)] else [])
                else if s.quantum == 1 && Overtakes(s, l) then
                  && o.sched.running == Some(|s.threads|)
                  && o.acts == [Post(|s.threads|), Post(|s.threads|), Wait(|s.threads|), Wait(r)]
                else HandsOver(s, o))
            && o.overtaken == (if Overtakes(s, l) then [(r, |s.threads|)] else [])
  {
    hide Inv, Sorted, InPlace, FrontIndex, ScheduleThread, Exec, Fork, Exit, WaitFor, Signal, SameEnds;
    SameEndsRefl(s.threads);
    match l {
      case ForkCall(h, p) => ForkCallKeepsInv(s, h, p);
      case WaitCall(io) => WaitKeepsInv(s, io);
      case SignalCall(io) => SignalKeepsInv(s, io);
      case ExecCall => ExecKeepsInv(s);
      case ExitCall => ExitKeepsInv(s);
    }
  }

  lemma SameEndsRefl(ts: seq<Thread>)
    ensures SameEnds(ts, ts)
  {
  }

  lemma ForkCallKeepsInv(s: Sched, handler: bool, p: nat)
    requires Inv(s) && s.running.Some?
    ensures var o, r, l := Fork(s, handler, p).0, s.running.value, ForkCall(handler, p);
            && Inv(o.sched) && SameEnds(s.threads, o.sched.threads)
            && (if s.quantum == 1 && Overtakes(s, l) then
                  && o.sched.running == Some(|s.threads|)
                  && o.acts == [Post(|s.threads|), Post(|s.threads|), Wait(|s.threads|), Wait(r)]
                else HandsOver(s, o))
            && o.overtaken == (if Overtakes(s, l) then [(r, |s.threads|)] else [])
  {
    hide Inv, Sorted, InPlace, FrontIndex, ScheduleThread, Exec, Fork, SameEnds;
    SameEndsRefl(s.threads);
    ForkRefused(s, handler, p);
    if handler && p <= SO_MAX_PRIO {
      LegalPriority(s);
      if p <= s.threads[s.running.value].priority {
        ForkBehind(s, p);
      } else {
        ForkAhead(s, p);
        if s.quantum == 1 { ForkAheadShort(s, p); }
      }
    }
  }

  lemma ForkRefused(s: Sched, handler: bool, p: nat)
    requires Inv(s)
    ensures s.quantum >= 1
    ensures !handler || p > SO_MAX_PRIO ==> Fork(s, handler, p) == (Quiet(s), None)
  {
  }

  /** Every `sem_wait` of the call is on the caller's own semaphore. */
  predicate OwnWaits(acts: seq<Action>, caller: Tid) {
    forall i :: 0 <= i < |acts| && acts[i].Wait? ==> acts[i].thread == caller
  }

  /** A call waits on the caller's own semaphore only, except a fork that overtakes under a quantum of one. */
  lemma OwnWaitsIff(s: Sched, l: LibraryCall)
    requires Inv(s) && s.running.Some?
    ensures OwnWaits(CallOf(s, s.running.value, l).acts, s.running.value) <==> !(s.quantum == 1 && Overtakes(s, l))
  {
    hide Inv, CallOf;
    RunnerInRange(s);
    CallKeepsInv(s, l);
    var acts := CallOf(s, s.running.value, l).acts;
    if s.quantum == 1 && Overtakes(s, l) { assert acts[2].Wait?; }
  }

  /** Only the end of a thread can leave nobody running, and it does exactly if all other threads wait or have ended. */
  lemma OnlyExitIdles(s: Sched, l: LibraryCall)
    requires Inv(s) && s.running.Some?
    ensures var r := s.running.value;
            CallOf(s, r, l).sched.running.None?
            <==> l.ExitCall? && forall t :: 0 <= t < |s.threads| && t != r ==>
                   s.threads[t].state.Waiting? || s.threads[t].state.Terminated?
  {
    hide CallOf, Sorted, EventsMatch, HasTime, Fair;
    CallKeepsInv(s, l);
    if l.ExitCall? {
      ExitIdles(s);
    }
  }

  lemma ExitIdles(s: Sched)
    requires Inv(s) && s.running.Some?
    ensures var r := s.running.value;
            CallOf(s, r, ExitCall).sched.running.None?
            <==> forall t :: 0 <= t < |s.threads| && t != r ==>
                   s.threads[t].state.Waiting? || s.threads[t].state.Terminated?
  {
    hide Exit, NoDuplicates, EventsMatch, HasTime, Fair, FrontIndex;
    ExitKeepsInv(s);
    FrontIsHighest(s.queue, s.threads);
    assert InPlace(s, s.running.value);
    forall t | 0 <= t < |s.threads| && t != s.running.value
      ensures t in s.queue && !s.threads[t].state.Waiting?
              <==> !(s.threads[t].state.Waiting? || s.threads[t].state.Terminated?)
    {
      assert InPlace(s, t);
    }
  }

  // ---------------------------------------------------------------- the handoff

  /** Where the processor is: nobody wants it, a thread has it, a thread was posted and has yet to wake up, or main or
      a thread has yet to post the next one. */
  datatype Phase = Idle | Runs | Posted | MainPosts | Posts(poster: Tid)

  /** The thread is parked on its own semaphore, whose value is 0, or gone. */
  predicate AtRest(m: System, t: Tid)
    requires Consistent(m) && t < |m.sems|
  {
    m.sems[t] == 0 && m.todo[t] == (if m.sched.threads[t].state.Terminated? then [] else [Wait(t)])
  }

  /** What the thread `t` that is not at rest has to do. */
  predicate Busy(m: System, ph: Phase, t: Tid)
    requires Consistent(m) && t < |m.sems| && m.sched.running.Some?
  {
    var x := m.sched.running.value;
    match ph
    case Runs => t == x && m.sems[t] == 0 && m.todo[t] == []
    case Posted => t == x && m.sems[t] == 1 && m.todo[t] == [Wait(t)]
    case Posts(u) => t == u && m.sems[t] == 0
                     && m.todo[t] == [Post(x)] + (if m.sched.threads[t].state.Terminated? then [] else [Wait(t)])
    case _ => false
  }

  /** The thread that is not at rest in a phase. */
  function Active(m: System, ph: Phase): Option<Tid> {
    match ph
    case Runs => m.sched.running
    case Posted => m.sched.running
    case Posts(u) => Some(u)
    case _ => None
  }

  predicate InPhase(m: System, ph: Phase) {
    && Consistent(m) && Inv(m.sched)
    && (ph.Idle? <==> m.sched.running.None?)
    && m.main == (if ph.MainPosts? then [Post(m.sched.running.value)] else [])
    && (Active(m, ph).Some? ==> Active(m, ph).value < |m.sems| && Busy(m, ph, Active(m, ph).value))
    && forall t :: 0 <= t < |m.sems| && Active(m, ph) != Some(t) ==> AtRest(m, t)
  }

  /** The phase after a step. */
  function NextPhase(m: System, ph: Phase, st: Step): Phase
    requires Consistent(m) && Enabled(m, st)
  {
    match st
    case MainForks(_) => if Next(m, st).main == [] then Idle else MainPosts
    case MainActs => Posted
    case Calls(t, _) =>
      if Next(m, st).sched.running.None? then Idle else if Next(m, st).todo[t] == [] then Runs else Posts(t)
    case Acts(t) => if ph.Posts? then Posted else Runs
  }

  /** The handoff survives every step, unless the quantum is one. */
  lemma StepKeepsPhase(m: System, ph: Phase, st: Step)
    requires InPhase(m, ph) && m.sched.quantum >= 2 && Enabled(m, st)
    ensures InPhase(Next(m, st), NextPhase(m, ph, st)) && Next(m, st).sched.quantum == m.sched.quantum
  {
    hide Inv;
    match st {
      case MainForks(p) => MainForkKeepsPhase(m, ph, p);
      case Calls(t, l) => OnlyRunnerExecutes(m, ph, t); CallKeepsPhase(m, t, l);
      case MainActs => MainActKeepsPhase(m, ph);
      case Acts(t) => ActKeepsPhase(m, ph, t);
    }
  }

  /** Only the active thread can go on, and only to post or after it was posted. */
  lemma ActKeepsPhase(m: System, ph: Phase, t: Tid)
    requires InPhase(m, ph) && Enabled(m, Acts(t))
    ensures Active(m, ph) == Some(t) && (ph.Posted? || ph.Posts?)
    ensures var st := Acts(t); InPhase(Next(m, st), NextPhase(m, ph, st))
  {
    hide Inv;
    forall u | 0 <= u < |m.sems| && Active(m, ph) != Some(u) ensures !CanAct(m, m.todo[u]) {
      assert AtRest(m, u);
    }
    RunnerIsAlive(m.sched);
  }

  lemma MainActKeepsPhase(m: System, ph: Phase)
    requires InPhase(m, ph) && Enabled(m, MainActs)
    ensures InPhase(Next(m, MainActs), Posted)
  {
    hide Inv;
    RunnerIsAlive(m.sched);
    assert AtRest(m, m.sched.running.value);
  }

  lemma RunnerIsAlive(s: Sched)
    requires Inv(s) && s.running.Some?
    ensures s.threads[s.running.value].state.Running?
  {
    assert InPlace(s, s.running.value);
  }

  lemma OnlyRunnerExecutes(m: System, ph: Phase, t: Tid)
    requires InPhase(m, ph) && Executing(m, t)
    ensures ph.Runs? && m.sched.running == Some(t)
  {
    hide Inv;
    assert Active(m, ph) != Some(t) ==> AtRest(m, t);
  }

  lemma CallKeepsPhase(m: System, t: Tid, l: LibraryCall)
    requires InPhase(m, Runs) && m.sched.quantum >= 2 && Enabled(m, Calls(t, l)) && m.sched.running == Some(t)
    ensures var st := Calls(t, l); InPhase(Next(m, st), NextPhase(m, Runs, st))
  {
    hide Inv, CallOf;
    CallKeepsInv(m.sched, l);
  }

  lemma MainForkKeepsPhase(m: System, ph: Phase, p: nat)
    requires InPhase(m, ph) && Enabled(m, MainForks(p))
    ensures var st := MainForks(p); InPhase(Next(m, st), NextPhase(m, ph, st))
  {
    hide Inv, Fork;
    ForkRefused(m.sched, true, p);
    if p <= SO_MAX_PRIO { ForkIdle(m.sched, p); }
  }

  // ---------------------------------------------------------------- runs

  function Start(s: Sched): System { System(s, [], [], []) }

  lemma StartIsIdle(quantum: nat, io: nat)
    requires Init(quantum, io).Some?
    ensures InPhase(Start(Init(quantum, io).value), Idle)
  {
    hide Inv;
    InitIsInv(quantum, io);
  }

  lemma InitIsInv(quantum: nat, io: nat)
    requires Init(quantum, io).Some?
    ensures Inv(Init(quantum, io).value)
  {
    var s := Init(quantum, io).value;
    assert s.queue == [] && s.threads == [];
    assert Wf(s) && Sorted(s.queue, s.threads);
    hide Wf, Sorted;
    assert Placed(s) && EventsMatch(s);
    hide Placed, EventsMatch;
  }

  /** In every reachable state the threads are handed over one to the next. */
  lemma {:induction false} RunKeepsPhase(m: System, ph: Phase, sts: seq<Step>, m': System)
    requires InPhase(m, ph) && m.sched.quantum >= 2 && Run(m, sts, m')
    ensures exists ph' :: InPhase(m', ph')
    decreases |sts|
  {
    hide InPhase, Next, NextPhase, Enabled;
    if sts != [] {
      PhaseIsConsistent(m, ph);
      StepKeepsPhase(m, ph, sts[0]);
      RunKeepsPhase(Next(m, sts[0]), NextPhase(m, ph, sts[0]), sts[1..], m');
    }
  }

  lemma PhaseIsConsistent(m: System, ph: Phase)
    requires InPhase(m, ph)
    ensures Consistent(m) && Inv(m.sched)
  {
  }

  predicate CanMove(m: System, t: Tid)
    requires Consistent(m)
  {
    Executing(m, t) || (t < |m.todo| && CanAct(m, m.todo[t]))
  }

  predicate MainCanMove(m: System)
    requires Consistent(m)
  {
    CanAct(m, m.main) || (m.main == [] && m.sched.running.None?)
  }

  /** In each phase exactly one of main and the threads can go on. */
  lemma OneMover(m: System, ph: Phase)
    requires InPhase(m, ph)
    ensures forall t: Tid :: CanMove(m, t) <==> Active(m, ph) == Some(t)
    ensures MainCanMove(m) <==> Active(m, ph).None?
    ensures forall t: Tid :: Executing(m, t) ==> m.sched.running == Some(t)
  {
    hide Inv;
    if m.sched.running.Some? { RunnerIsAlive(m.sched); }
    forall t: Tid ensures CanMove(m, t) <==> Active(m, ph) == Some(t) {
      assert t < |m.sems| && Active(m, ph) != Some(t) ==> AtRest(m, t);
    }
    forall t: Tid | Executing(m, t) ensures m.sched.running == Some(t) {
      assert CanMove(m, t);
    }
  }

  /** A thread that has been scheduled runs after at most two more steps, and nobody but its predecessor (or main) and
      itself can make them. */
  lemma HandoffCompletes(m: System, ph: Phase)
    requires InPhase(m, ph) && (ph.Posts? || ph.MainPosts?)
    ensures var post := if ph.Posts? then Acts(ph.poster) else MainActs;
            && Enabled(m, post) && Next(m, post).sched == m.sched
            && var n := Next(m, post);
               Enabled(n, Acts(m.sched.running.value)) && InPhase(Next(n, Acts(m.sched.running.value)), Runs)
  {
    hide Inv;
    OneMover(m, ph);
    var post := if ph.Posts? then Acts(ph.poster) else MainActs;
    if ph.Posts? {
      ActKeepsPhase(m, ph, ph.poster);
    } else {
      MainActKeepsPhase(m, ph);
    }
    var n := Next(m, post);
    hide Next, InPhase;
    PostedWakes(n);
  }

  lemma PostedWakes(n: System)
    requires InPhase(n, Posted)
    ensures n.sched.running.Some? && Enabled(n, Acts(n.sched.running.value))
    ensures InPhase(Next(n, Acts(n.sched.running.value)), Runs)
  {
    hide Inv;
    ActKeepsPhase(n, Posted, n.sched.running.value);
  }

  /** A single processor: no two of the threads and main can go on at the same time. */
  ghost predicate OneAtATime(m: System)
    requires Consistent(m)
  {
    && (forall t: Tid, u: Tid :: CanMove(m, t) && CanMove(m, u) ==> t == u)
    && (MainCanMove(m) ==> forall t: Tid :: !CanMove(m, t))
  }

  /** One actor after the other, in every reachable state: exactly if the quantum is at least two. */
  lemma SingleCpuIff(quantum: nat, io: nat)
    requires Init(quantum, io).Some?
    ensures (forall sts, m :: Run(Start(Init(quantum, io).value), sts, m) ==> Consistent(m) && OneAtATime(m))
            <==> quantum >= 2
  {
    hide InPhase, Run, OneAtATime;
    StartIsIdle(quantum, io);
    var m0 := Start(Init(quantum, io).value);
    PhaseIsConsistent(m0, Idle);
    if quantum >= 2 {
      forall sts, m | Run(m0, sts, m) ensures Consistent(m) && OneAtATime(m) {
        RunKeepsPhase(m0, Idle, sts, m);
        var ph :| InPhase(m, ph);
        PhaseIsConsistent(m, ph);
        OneMover(m, ph);
        OneAtATimeInPhase(m, ph);
      }
    } else {
      var m := QuantumOneState(io);
    }
  }

  lemma OneAtATimeInPhase(m: System, ph: Phase)
    requires InPhase(m, ph)
    ensures OneAtATime(m)
  {
    hide InPhase, CanMove, MainCanMove;
    OneMover(m, ph);
  }

  lemma RunNil(m: System)
    requires Consistent(m)
    ensures Run(m, [], m)
  {
  }

  lemma RunCons(m: System, st: Step, sts: seq<Step>, m': System)
    requires Consistent(m) && Enabled(m, st) && Run(Next(m, st), sts, m')
    ensures Run(m, [st] + sts, m')
  {
    assert ([st] + sts)[1..] == sts;
  }

  /** With a quantum of one: a thread of priority 0 forks one of priority 1. As soon as it has posted the new thread
      once, both can go on, and the post that comes next lets the new thread through a later wait. */
  lemma QuantumOneState(io: nat) returns (m: System)
    requires io <= SO_MAX_NUM_EVENTS
    ensures var sts := [MainForks(0), MainActs, Acts(0), Calls(0, ForkCall(true, 1)), Acts(0)];
            Run(Start(Sched([], [], None, 1, io)), sts, m)
    ensures Consistent(m) && CanMove(m, 0) && CanMove(m, 1) && !OneAtATime(m)
  {
    hide Inv, Run, CanMove, OneAtATime, Next, InPhase, Enabled;
    StartIsIdle(1, io);
    var m0 := Start(Sched([], [], None, 1, io));
    var m3 := FirstThreadRuns(m0);
    m := BothGoOn(m3);
    var tail := [Calls(0, ForkCall(true, 1)), Acts(0)];
    var m1 := Next(m0, MainForks(0));
    var m2 := Next(m1, MainActs);
    RunCons(m2, Acts(0), tail, m);
    RunCons(m1, MainActs, [Acts(0)] + tail, m);
    RunCons(m0, MainForks(0), [MainActs] + ([Acts(0)] + tail), m);
    assert [MainForks(0)] + ([MainActs] + ([Acts(0)] + tail))
        == [MainForks(0), MainActs, Acts(0), Calls(0, ForkCall(true, 1)), Acts(0)];
  }

  /** Main forks the first thread, of priority 0, which starts to run. */
  lemma FirstThreadRuns(m0: System) returns (m3: System)
    requires InPhase(m0, Idle) && m0.sched.threads == []
    ensures Enabled(m0, MainForks(0)) && Enabled(Next(m0, MainForks(0)), MainActs)
    ensures var m2 := Next(Next(m0, MainForks(0)), MainActs); Enabled(m2, Acts(0)) && m3 == Next(m2, Acts(0))
    ensures InPhase(m3, Runs) && m3.sched.running == Some(0) && m3.sched.quantum == m0.sched.quantum
    ensures |m3.sched.threads| == 1 && m3.sched.threads[0].priority == 0
  {
    hide Inv, Fork;
    ForkIdle(m0.sched, 0);
    MainForkKeepsPhase(m0, Idle, 0);
    var m1 := Next(m0, MainForks(0));
    MainActKeepsPhase(m1, MainPosts);
    var m2 := Next(m1, MainActs);
    ActKeepsPhase(m2, Posted, 0);
    m3 := Next(m2, Acts(0));
  }

  lemma BothGoOn(m3: System) returns (m: System)
    requires InPhase(m3, Runs) && m3.sched.running == Some(0) && m3.sched.quantum == 1
    requires |m3.sched.threads| == 1 && m3.sched.threads[0].priority == 0
    ensures Run(m3, [Calls(0, ForkCall(true, 1)), Acts(0)], m)
    ensures Consistent(m) && CanMove(m, 0) && CanMove(m, 1) && !OneAtATime(m)
  {
    hide Inv, CallOf, Run;
    RunnerIsAlive(m3.sched);
    CallKeepsInv(m3.sched, ForkCall(true, 1));
    var m4 := Next(m3, Calls(0, ForkCall(true, 1)));
    m := Next(m4, Acts(0));
    assert CanMove(m, 0) && CanMove(m, 1);
    RunNil(m);
    RunCons(m4, Acts(0), [], m);
    assert [Acts(0)] + [] == [Acts(0)];
    RunCons(m3, Calls(0, ForkCall(true, 1)), [Acts(0)], m);
    assert [Calls(0, ForkCall(true, 1))] + [Acts(0)] == [Calls(0, ForkCall(true, 1)), Acts(0)];
  }

  // ---------------------------------------------------------------- a thread that runs beside the running one

  /** Only the running thread is in its own code. */
  ghost predicate OnlyRunner(m: System)
    requires Consistent(m)
  {
    forall t: Tid :: Executing(m, t) ==> m.sched.running == Some(t)
  }

  /** A thread of priority `p` or less runs, and a fork of priority `p + 1` overtakes it under a quantum of one: what
      the fork leaves to do. */
  lemma OvertakingFork(s: Sched, p: nat)
    requires Inv(s) && s.running.Some? && s.quantum == 1 && s.threads[s.running.value].priority == p < SO_MAX_PRIO
    ensures var o, r, t := CallOf(s, s.running.value, ForkCall(true, p + 1)), s.running.value, |s.threads|;
            && Inv(o.sched) && o.sched.running == Some(t) && |o.sched.threads| == t + 1 && o.sched.quantum == 1
            && o.sched.threads[t].priority == p + 1 && SameEnds(s.threads, o.sched.threads)
            && o.acts == [Post(t), Post(t), Wait(t), Wait(r)]
  {
    hide Inv, SameEnds, HandsOver;
    CallKeepsInv(s, ForkCall(true, p + 1));
  }

  /** The system of two threads before thread 1 forks, with thread 0 still in the middle of its fork. */
  predicate MidFork(m: System) {
    && Consistent(m) && Inv(m.sched) && m.sched.quantum == 1 && m.sched.running == Some(1) && |m.sched.threads| == 2
    && m.sched.threads[1].priority == 1 && m.sems == [0, 0] && m.todo == [[Post(1), Wait(1), Wait(0)], []]
    && !m.sched.threads[0].state.Terminated? && !m.sched.threads[1].state.Terminated?
  }

  lemma FirstFork(m3: System) returns (m: System)
    requires InPhase(m3, Runs) && m3.sched.running == Some(0) && m3.sched.quantum == 1
    requires |m3.sched.threads| == 1 && m3.sched.threads[0].priority == 0
    ensures Run(m3, [Calls(0, ForkCall(true, 1)), Acts(0), Acts(1)], m) && MidFork(m) && Consistent(m)
  {
    hide Inv, CallOf, Run, SameEnds;
    RunnerIsAlive(m3.sched);
    OvertakingFork(m3.sched, 0);
    var a := Next(m3, Calls(0, ForkCall(true, 1)));
    NoneEnded(m3.sched.threads, a.sched.threads);
    assert a.sems == [0, 0] && a.todo == [[Post(1), Post(1), Wait(1), Wait(0)], [Wait(1)]];
    var b := Next(a, Acts(0));
    assert b.sems == [0, 1] && b.todo == [[Post(1), Wait(1), Wait(0)], [Wait(1)]];
    m := Next(b, Acts(1));
    assert b.todo[1][1..] == [] && m.sems == [0, 0];
    assert m.todo == [[Post(1), Wait(1), Wait(0)], []];
    RunNil(m);
    RunThree(m3, Calls(0, ForkCall(true, 1)), a, Acts(0), b, Acts(1), m, [], m);
    assert [Calls(0, ForkCall(true, 1)), Acts(0), Acts(1)] + [] == [Calls(0, ForkCall(true, 1)), Acts(0), Acts(1)];
  }

  lemma NoneEnded(ts: seq<Thread>, us: seq<Thread>)
    requires SameEnds(ts, us) && forall t :: 0 <= t < |ts| ==> !ts[t].state.Terminated?
    ensures forall t :: 0 <= t < |us| ==> !us[t].state.Terminated?
  {
  }

  /** Three steps before a run. */
  lemma RunThree(m: System, x: Step, a: System, y: Step, b: System, z: Step, d: System, sts: seq<Step>, e: System)
    requires Consistent(m) && Enabled(m, x) && a == Next(m, x)
    requires Enabled(a, y) && b == Next(a, y)
    requires Enabled(b, z) && d == Next(b, z)
    requires Run(d, sts, e)
    ensures Run(m, [x, y, z] + sts, e)
  {
    hide Run, Next, Enabled;
    RunCons(b, z, sts, e);
    RunCons(a, y, [z] + sts, e);
    RunCons(m, x, [y] + ([z] + sts), e);
    assert [x] + ([y] + ([z] + sts)) == [x, y, z] + sts;
  }

  /** Thread 1 forks thread 2, which starts to run; then thread 0 posts thread 1 a second time, and thread 1 goes on
      with that, although thread 2 is the running one. */
  lemma SecondFork(m: System) returns (e: System)
    requires MidFork(m)
    ensures var sts := [Calls(1, ForkCall(true, 2)), Acts(0), Acts(1)] + ([Acts(2), Acts(1), Acts(1)] + [Acts(1)]);
            Run(m, sts, e)
    ensures Consistent(e) && e.sched.running == Some(2) && Executing(e, 1) && Executing(e, 2)
  {
    hide Inv, CallOf, Run, SameEnds;
    OvertakingFork(m.sched, 1);
    var a := Next(m, Calls(1, ForkCall(true, 2)));
    NoneEnded(m.sched.threads, a.sched.threads);
    assert a.sems == [0, 0, 0];
    assert a.todo == [[Post(1), Wait(1), Wait(0)], [Post(2), Post(2), Wait(2), Wait(1)], [Wait(2)]];
    var b := Next(a, Acts(0));
    assert b.sems == [0, 1, 0] && b.todo == [[Wait(1), Wait(0)], [Post(2), Post(2), Wait(2), Wait(1)], [Wait(2)]];
    var d := Next(b, Acts(1));
    assert d.sems == [0, 1, 1] && d.todo == [[Wait(1), Wait(0)], [Post(2), Wait(2), Wait(1)], [Wait(2)]];
    e := LastActs(d);
    RunThree(m, Calls(1, ForkCall(true, 2)), a, Acts(0), b, Acts(1), d, [Acts(2), Acts(1), Acts(1)] + [Acts(1)], e);
  }

  lemma LastActs(d: System) returns (e: System)
    requires Consistent(d) && |d.sched.threads| == 3 && d.sched.running == Some(2)
    requires forall t :: 0 <= t < 3 ==> !d.sched.threads[t].state.Terminated?
    requires d.sems == [0, 1, 1] && d.todo == [[Wait(1), Wait(0)], [Post(2), Wait(2), Wait(1)], [Wait(2)]]
    ensures Run(d, [Acts(2), Acts(1), Acts(1)] + [Acts(1)], e)
    ensures Consistent(e) && e.sched.running == Some(2) && Executing(e, 1) && Executing(e, 2)
  {
    hide Run;
    var x := Next(d, Acts(2));
    assert d.todo[2][1..] == [];
    assert x.sems == [0, 1, 0] && x.todo == [[Wait(1), Wait(0)], [Post(2), Wait(2), Wait(1)], []];
    var y := Next(x, Acts(1));
    assert y.sems == [0, 1, 1] && y.todo == [[Wait(1), Wait(0)], [Wait(2), Wait(1)], []];
    var z := Next(y, Acts(1));
    assert z.sems == [0, 1, 0] && z.todo == [[Wait(1), Wait(0)], [Wait(1)], []];
    e := Next(z, Acts(1));
    RunNil(e);
    RunCons(z, Acts(1), [], e);
    assert [Acts(1)] + [] == [Acts(1)];
    RunThree(d, Acts(2), x, Acts(1), y, Acts(1), z, [Acts(1)], e);
  }

  /** With a quantum of one, two threads get to run their own code at the same time. */
  lemma TwoExecute(io: nat) returns (sts: seq<Step>, e: System)
    requires io <= SO_MAX_NUM_EVENTS
    ensures Run(Start(Sched([], [], None, 1, io)), sts, e)
    ensures Consistent(e) && Executing(e, 1) && Executing(e, 2) && !OnlyRunner(e)
  {
    hide Inv, Run, Executing, Next, InPhase, Enabled, MidFork;
    StartIsIdle(1, io);
    var m0 := Start(Sched([], [], None, 1, io));
    var m3 := FirstThreadRuns(m0);
    var m := FirstFork(m3);
    e := SecondFork(m);
    var first := [Calls(0, ForkCall(true, 1)), Acts(0), Acts(1)];
    var second := [Calls(1, ForkCall(true, 2)), Acts(0), Acts(1)] + ([Acts(2), Acts(1), Acts(1)] + [Acts(1)]);
    RunAppend(m3, first, m, second, e);
    var m1 := Next(m0, MainForks(0));
    RunThree(m0, MainForks(0), m1, MainActs, Next(m1, MainActs), Acts(0), m3, first + second, e);
    sts := [MainForks(0), MainActs, Acts(0)] + (first + second);
    assert e.sched.running == Some(2);
  }

  lemma {:induction false} RunAppend(m: System, a: seq<Step>, d: System, b: seq<Step>, e: System)
    requires Consistent(m) && Run(m, a, d) && Consistent(d) && Run(d, b, e)
    ensures Run(m, a + b, e)
    decreases |a|
  {
    hide Next, Enabled;
    if a == [] {
      assert a + b == b;
    } else {
      RunAppend(Next(m, a[0]), a[1..], d, b, e);
      assert a + b == [a[0]] + (a[1..] + b);
      RunCons(m, a[0], a[1..] + b, e);
    }
  }

  /** Only the running thread is ever in its own code: exactly if the quantum is at least two. */
  lemma OnlyRunnerIff(quantum: nat, io: nat)
    requires Init(quantum, io).Some?
    ensures (forall sts, m :: Run(Start(Init(quantum, io).value), sts, m) ==> Consistent(m) && OnlyRunner(m))
            <==> quantum >= 2
  {
    hide InPhase, Run, Executing;
    StartIsIdle(quantum, io);
    var m0 := Start(Init(quantum, io).value);
    PhaseIsConsistent(m0, Idle);
    if quantum >= 2 {
      forall sts, m | Run(m0, sts, m) ensures Consistent(m) && OnlyRunner(m) {
        RunKeepsPhase(m0, Idle, sts, m);
        var ph :| InPhase(m, ph);
        PhaseIsConsistent(m, ph);
        OneMover(m, ph);
      }
    } else {
      var sts, e := TwoExecute(io);
    }
  }

  // ---------------------------------------------------------------- a lone thread

  /** A thread that is alone cannot wait, although the event exists. */
  lemma LoneThreadCannotWait(quantum: nat, io: nat, event: nat)
    requires Init(quantum, io).Some? && event < io
    ensures var s := Fork(Init(quantum, io).value, true, 0).0.sched;
            s.running.Some? && WaitFor(s, event) == Returned(Quiet(s), -1)
  {
    hide Inv, Fork, WaitFor;
    InitIsInv(quantum, io);
    var s0 := Init(quantum, io).value;
    ForkIdle(s0, 0);
    var s := Fork(s0, true, 0).0.sched;
    WaitKeepsInv(s, event);
    LoneQueue(s);
  }

  /** The queue of the only thread, which runs, is empty. */
  lemma LoneQueue(s: Sched)
    requires Inv(s) && |s.threads| == 1 && s.running == Some(0)
    ensures Front(s.queue, s.threads).None?
  {
    assert InPlace(s, 0);
    FirstInQueue(s.queue);
  }

  lemma FirstInQueue(q: seq<Tid>)
    ensures q == [] || q[0] in q
  {
  }
}
