/** Exact round robin: how many `so_exec` calls it takes until a ready thread runs. */
module RoundRobin {
  import opened Options
  import opened ReadyQueue
  import opened SchedulerSpec
  import opened SchedulerInvariant

  /** A thread that shares the processor with threads of priority `p`. */
  predicate Shares(x: Thread, p: nat) { !x.state.Waiting? && x.priority == p }

  /** The remaining quanta of the threads ahead of `t` that share the processor with it. */
  function Ahead(q: seq<Tid>, t: Tid, ts: seq<Thread>): nat
    requires InRange(q, ts) && t < |ts|
  {
    if q == [] || q[0] == t then 0
    else (if Shares(ts[q[0]], ts[t].priority) then ts[q[0]].timeQuantum else 0) + Ahead(q[1..], t, ts)
  }

  /** How many these are. */
  function CountAhead(q: seq<Tid>, t: Tid, ts: seq<Thread>): nat
    requires InRange(q, ts) && t < |ts|
  {
    if q == [] || q[0] == t then 0
    else (if Shares(ts[q[0]], ts[t].priority) then 1 else 0) + CountAhead(q[1..], t, ts)
  }

  /** The thread is ready, with the priority of the running thread. */
  predicate TakesTurns(s: Sched, t: Tid) {
    && Inv(s) && s.running.Some? && t < |s.threads|
    && s.threads[t].state.Ready? && s.threads[t].priority == s.threads[s.running.value].priority
  }

  function CallsUntil(s: Sched, t: Tid): nat
    requires Wf(s) && s.running.Some? && t < |s.threads|
  {
    s.threads[s.running.value].timeQuantum + Ahead(s.queue, t, s.threads)
  }

  /** `n` calls of `so_exec`, one after the other. */
  function After(s: Sched, n: nat): (s': Sched)
    requires Wf(s)
    ensures Wf(s')
    decreases n
  {
    if n == 0 then s else After(Exec(s).sched, n - 1)
  }

  // ---------------------------------------------------------------- the queue

  /** A thread of no higher priority queues up behind `t`. */
  lemma {:induction false} AheadOfInserted(q: seq<Tid>, t: Tid, r: Tid, ts: seq<Thread>)
    requires InRange(q, ts) && Sorted(q, ts) && t in q && r < |ts| && r != t
    requires ts[r].priority <= ts[t].priority
    ensures Ahead(Insert(q, r, ts), t, ts) == Ahead(q, t, ts)
    decreases |q|
  {
    var i :| 0 <= i < |q| && q[i] == t;
    assert ts[q[0]].priority >= ts[t].priority;
    if q[0] != t {
      assert q[1..][i - 1] == t;
      AheadOfInserted(q[1..], t, r, ts);
      assert Insert(q, r, ts)[1..] == Insert(q[1..], r, ts);
    }
  }

  /** The front leaves: either it is `t`, with nobody to wait for, or its share of the time is gone. */
  lemma {:induction false} AheadOfDequeued(q: seq<Tid>, k: nat, ts: seq<Thread>)
    requires InRange(q, ts) && k < |q| && !ts[q[k]].state.Waiting?
    requires forall i :: 0 <= i < k ==> q[i] != q[k] && ts[q[i]].priority >= ts[q[k]].priority
    requires forall i :: 0 <= i < k && !ts[q[i]].state.Waiting? ==> ts[q[i]].priority <= ts[q[k]].priority
    ensures var f, t := Front(q, ts), q[k];
            && f.Some? && f.value < |ts|
            && (f.value == t ==> Ahead(q, t, ts) == 0)
            && (f.value != t ==> ts[f.value].priority == ts[t].priority
                                 && Ahead(q, t, ts) == ts[f.value].timeQuantum + Ahead(Dequeue(q, ts), t, ts))
    decreases |q|
  {
    var t, rest := q[k], q[1..];
    FrontCons(q, ts);
    DequeueCons(q, ts);
    hide Front, Dequeue, FrontIndex, Ahead;
    assert q == [q[0]] + rest;
    AheadCons(q[0], rest, t, ts);
    if ts[q[0]].state.Waiting? {
      AheadOfDequeued(rest, k - 1, ts);
      AheadCons(q[0], Dequeue(rest, ts), t, ts);
    }
  }

  lemma AheadCons(u: Tid, rest: seq<Tid>, t: Tid, ts: seq<Thread>)
    requires u < |ts| && InRange(rest, ts) && t < |ts|
    ensures InRange([u] + rest, ts)
    ensures Ahead([u] + rest, t, ts)
            == if u == t then 0
               else (if Shares(ts[u], ts[t].priority) then ts[u].timeQuantum else 0) + Ahead(rest, t, ts)
  {
    assert ([u] + rest)[1..] == rest;
  }

  lemma DequeueCons(q: seq<Tid>, ts: seq<Thread>)
    requires InRange(q, ts) && q != []
    ensures InRange(q[1..], ts)
    ensures Dequeue(q, ts) == (if ts[q[0]].state.Waiting? then [q[0]] + Dequeue(q[1..], ts) else q[1..])
  {
    hide FrontIndex;
    FrontIndexCons(q, ts);
    hide InRange;
    var j := FrontIndex(q[1..], ts);
    if !ts[q[0]].state.Waiting? {
      assert q[..0] + q[0 + 1..] == q[1..];
    } else if j < |q[1..]| {
      RemoveCons(q, j);
    } else {
      assert q == [q[0]] + q[1..];
    }
  }

  lemma FrontIndexCons(q: seq<Tid>, ts: seq<Thread>)
    requires InRange(q, ts) && q != []
    ensures InRange(q[1..], ts)
    ensures FrontIndex(q, ts) == (if ts[q[0]].state.Waiting? then 1 + FrontIndex(q[1..], ts) else 0)
  {
  }

  lemma RemoveCons(q: seq<Tid>, j: nat)
    requires j + 1 < |q|
    ensures [q[0]] + (q[1..][..j] + q[1..][j + 1..]) == q[..j + 1] + q[j + 2..]
  {
    assert q[1..][j + 1..] == q[j + 2..];
    assert [q[0]] + q[1..][..j] == q[..j + 1];
  }

  lemma {:induction false} AheadStays(q: seq<Tid>, t: Tid, ts: seq<Thread>, us: seq<Thread>)
    requires InRange(q, ts) && InRange(q, us) && t < |ts| && t < |us| && us[t].priority == ts[t].priority
    requires forall i :: 0 <= i < |q| ==> us[q[i]] == ts[q[i]]
    ensures Ahead(q, t, us) == Ahead(q, t, ts)
    decreases |q|
  {
    if q != [] && q[0] != t {
      AheadStays(q[1..], t, ts, us);
    }
  }

  lemma {:induction false} AheadIsBounded(q: seq<Tid>, t: Tid, ts: seq<Thread>, quantum: nat)
    requires InRange(q, ts) && t < |ts|
    requires forall i :: 0 <= i < |q| ==> ts[q[i]].timeQuantum <= quantum
    ensures Ahead(q, t, ts) <= CountAhead(q, t, ts) * quantum
    decreases |q|
  {
    if q != [] && q[0] != t {
      AheadIsBounded(q[1..], t, ts, quantum);
      var k := CountAhead(q[1..], t, ts);
      assert (1 + k) * quantum == quantum + k * quantum;
    }
  }

  // ---------------------------------------------------------------- one call

  /** One `so_exec` brings the turn of `t` one call closer. */
  lemma TurnComesCloser(s: Sched, t: Tid)
    requires TakesTurns(s, t)
    ensures CallsUntil(s, t) >= 1 && Inv(Exec(s).sched)
    ensures if CallsUntil(s, t) == 1 then Exec(s).sched.running == Some(t)
            else TakesTurns(Exec(s).sched, t) && Exec(s).sched.running != Some(t)
                 && CallsUntil(Exec(s).sched, t) == CallsUntil(s, t) - 1
  {
    hide Insert, Dequeue, Sorted, FrontIndex;
    TurnFacts(s, t);
    var r := s.running.value;
    ExecKeepsInv(s);
    if s.threads[r].timeQuantum == 1 {
      TurnChanges(s, t);
    } else {
      var d := Exec(s).sched;
      AheadStays(s.queue, t, s.threads, d.threads);
    }
  }

  lemma TurnFacts(s: Sched, t: Tid)
    requires TakesTurns(s, t)
    ensures var r := s.running.value;
            && Wf(s) && s.threads[r].state.Running? && s.threads[r].event == NO_EVENT
            && r !in s.queue && t in s.queue && r != t && 1 <= s.threads[r].timeQuantum <= s.quantum
            && Sorted(s.queue, s.threads)
            && (forall u :: u in s.queue ==> u < |s.threads|)
            && forall u :: u in s.queue && !s.threads[u].state.Waiting? ==>
                 s.threads[u].priority <= s.threads[t].priority && s.threads[u].timeQuantum >= 1
  {
    assert InPlace(s, s.running.value) && InPlace(s, t);
    forall u | u in s.queue ensures u < |s.threads| && (s.threads[u].state.Waiting? || s.threads[u].state.Ready?) {
      assert InPlace(s, u);
    }
  }

  /** At the end of a quantum the running thread goes behind `t`, and the front takes over. */
  lemma TurnChanges(s: Sched, t: Tid)
    requires TakesTurns(s, t) && s.threads[s.running.value].timeQuantum == 1
    ensures var e := Exec(s).sched;
            && e.running.Some? && Inv(e) && t < |e.threads|
            && (e.running.value == t ==> Ahead(s.queue, t, s.threads) == 0)
            && (e.running.value != t ==>
                  && TakesTurns(e, t)
                  && Ahead(s.queue, t, s.threads)
                     == e.threads[e.running.value].timeQuantum + Ahead(e.queue, t, e.threads)
                  && e.threads[e.running.value].timeQuantum >= 1)
  {
    hide Insert, Dequeue, Sorted, FrontIndex, NoDuplicates, InPlace, Floating, Settled, Ahead;
    TurnFacts(s, t);
    var r := s.running.value;
    var d := s.(threads := s.threads[r := s.threads[r].(timeQuantum := s.quantum, state := Ready)], running := None);
    Descheduled(s, d);
    ScheduleIdle(d, r);
    QueuedBehind(s, d, t);
    var q := Queued(d, r);
    var k := PlaceOf(q, t);
    AheadOfDequeued(q.queue, k, q.threads);
    if Front(q.queue, q.threads) != Some(t) { DequeueKeepsOthers(q, t); }
  }

  /** The running thread queues up behind `t`. */
  lemma QueuedBehind(s: Sched, d: Sched, t: Tid)
    requires TakesTurns(s, t) && Wf(d) && |d.threads| == |s.threads| && d.queue == s.queue
    requires var r := s.running.value;
             d.threads == s.threads[r := d.threads[r]] && d.threads[r].state.Ready?
             && d.threads[r].priority == s.threads[r].priority
    ensures var q := Queued(d, s.running.value);
            && q.threads == d.threads && t in q.queue && InRange(q.queue, q.threads)
            && Ahead(q.queue, t, q.threads) == Ahead(s.queue, t, s.threads)
            && forall i :: 0 <= i < |q.queue| && !q.threads[q.queue[i]].state.Waiting? ==>
                 q.threads[q.queue[i]].priority <= q.threads[t].priority
  {
    hide Insert, Sorted, NoDuplicates, InPlace, Ahead, Inv;
    TurnFacts(s, t);
    var r := s.running.value;
    SortedStays(s.queue, s.threads, d.threads);
    AheadStays(s.queue, t, s.threads, d.threads);
    AheadOfInserted(s.queue, t, r, d.threads);
    InsertMembers(s.queue, r, d.threads);
    var q := Queued(d, r);
    assert forall i :: 0 <= i < |q.queue| ==> q.queue[i] in q.queue;
  }

  /** The one position of a thread in the queue. */
  lemma PlaceOf(q: Sched, t: Tid) returns (k: nat)
    requires Settled(q) && t in q.queue
    ensures k < |q.queue| && q.queue[k] == t
    ensures forall i :: 0 <= i < k ==> q.queue[i] != t && q.threads[q.queue[i]].priority >= q.threads[t].priority
  {
    k :| 0 <= k < |q.queue| && q.queue[k] == t;
  }

  /** Scheduling the front changes nothing else that counts for `t`. */
  lemma DequeueKeepsOthers(q: Sched, t: Tid)
    requires Settled(q) && t < |q.threads| && Front(q.queue, q.threads).Some?
    requires Front(q.queue, q.threads).value < |q.threads| && Front(q.queue, q.threads).value != t
    ensures var x := Front(q.queue, q.threads).value;
            var e := Promote(q, x);
            && Ahead(e.queue, t, e.threads) == Ahead(Dequeue(q.queue, q.threads), t, q.threads)
            && e.threads[t] == q.threads[t] && e.threads[x].timeQuantum == q.threads[x].timeQuantum >= 1
  {
    hide Dequeue, FrontIndex;
    DequeueMembers(q.queue, q.threads);
    var e := Promote(q, Front(q.queue, q.threads).value);
    assert forall i :: 0 <= i < |e.queue| ==> e.queue[i] in e.queue;
    AheadStays(e.queue, t, q.threads, e.threads);
  }

  // ---------------------------------------------------------------- many calls

  /** A ready thread of the running thread's priority first runs after exactly this many calls. */
  lemma {:induction false} ExactRoundRobin(s: Sched, t: Tid)
    requires TakesTurns(s, t)
    ensures After(s, CallsUntil(s, t)).running == Some(t)
    ensures forall n :: 0 <= n < CallsUntil(s, t) ==> After(s, n).running != Some(t)
    decreases CallsUntil(s, t)
  {
    hide Inv, Exec, Ahead;
    TurnFacts(s, t);
    TurnComesCloser(s, t);
    var c := CallsUntil(s, t);
    var e := Exec(s).sched;
    if c > 1 { ExactRoundRobin(e, t); }
    forall n | 0 <= n < c ensures After(s, n).running != Some(t) {
      if n > 0 {
        assert After(s, n) == After(e, n - 1);
      }
    }
    assert After(s, c) == After(e, c - 1);
  }

  /** Hence at most one quantum for the running thread and each thread ahead. */
  lemma TurnWithinRounds(s: Sched, t: Tid)
    requires TakesTurns(s, t)
    ensures 1 <= CallsUntil(s, t) <= (CountAhead(s.queue, t, s.threads) + 1) * s.quantum
  {
    TurnFacts(s, t);
    AheadIsBounded(s.queue, t, s.threads, s.quantum);
    var k := CountAhead(s.queue, t, s.threads);
    assert (k + 1) * s.quantum == k * s.quantum + s.quantum;
  }
}
