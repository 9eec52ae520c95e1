/** The queue of the thread scheduler as a sequence: a stable list by descending priority that also holds
    waiting threads. Threads are named by their position in the registry of all threads. */
module ReadyQueue {
  import opened Options

  datatype ThreadState = New | Ready | Running | Waiting | Terminated

  /** `thread_t`, without the pthread, the handler and the semaphore. */
  datatype Thread = Thread(priority: nat, state: ThreadState, timeQuantum: nat, event: nat)

  type Tid = nat

  predicate InRange(q: seq<Tid>, ts: seq<Thread>) {
    forall i :: 0 <= i < |q| ==> q[i] < |ts|
  }

  /** `enqueue`: in front of the first thread of lower priority. */
  function Insert(q: seq<Tid>, t: Tid, ts: seq<Thread>): (r: seq<Tid>)
    requires InRange(q, ts) && t < |ts|
    ensures |r| == |q| + 1 && InRange(r, ts)
  {
    if q == [] then [t]
    else if ts[t].priority > ts[q[0]].priority then [t] + q
    else [q[0]] + Insert(q[1..], t, ts)
  }

  /** The position of the first thread that does not wait, or the length of the queue. */
  function FrontIndex(q: seq<Tid>, ts: seq<Thread>): (i: nat)
    requires InRange(q, ts)
    ensures i <= |q| && (i < |q| ==> !ts[q[i]].state.Waiting?)
    ensures forall j :: 0 <= j < i ==> ts[q[j]].state.Waiting?
  {
    if q == [] then 0
    else if !ts[q[0]].state.Waiting? then 0
    else 1 + FrontIndex(q[1..], ts)
  }

  /** `front` */
  function Front(q: seq<Tid>, ts: seq<Thread>): Option<Tid>
    requires InRange(q, ts)
  {
    var i := FrontIndex(q, ts);
    if i < |q| then Some(q[i]) else None
  }

  /** `dequeue`: the queue without its front. */
  function Dequeue(q: seq<Tid>, ts: seq<Thread>): (r: seq<Tid>)
    requires InRange(q, ts)
    ensures InRange(r, ts)
  {
    var i := FrontIndex(q, ts);
    if i < |q| then q[..i] + q[i + 1..] else q
  }

  // ---------------------------------------------------------------- the order

  predicate Sorted(q: seq<Tid>, ts: seq<Thread>)
    requires InRange(q, ts)
  {
    forall i, j :: 0 <= i < j < |q| ==> ts[q[i]].priority >= ts[q[j]].priority
  }

  predicate NoDuplicates(q: seq<Tid>) {
    forall i, j :: 0 <= i < j < |q| ==> q[i] != q[j]
  }

  /** How many threads of the queue go in front of a thread of priority `p` that arrives last. */
  function Place(q: seq<Tid>, p: nat, ts: seq<Thread>): (k: nat)
    requires InRange(q, ts)
    ensures k <= |q|
    ensures forall i :: 0 <= i < k ==> ts[q[i]].priority >= p
    ensures k < |q| ==> p > ts[q[k]].priority
  {
    if q == [] || p > ts[q[0]].priority then 0 else 1 + Place(q[1..], p, ts)
  }

  /** `enqueue` splits the queue at one place: nothing is reordered, and every thread of the same priority stays
      in front. */
  lemma {:induction false} InsertSplits(q: seq<Tid>, t: Tid, ts: seq<Thread>)
    requires InRange(q, ts) && t < |ts|
    ensures var k := Place(q, ts[t].priority, ts); Insert(q, t, ts) == q[..k] + [t] + q[k..]
    decreases |q|
  {
    var k := Place(q, ts[t].priority, ts);
    if q == [] || ts[t].priority > ts[q[0]].priority {
      assert q[..0] == [] && q[0..] == q && [] + [t] + q == [t] + q;
    } else {
      var rest := q[1..];
      InsertSplits(rest, t, ts);
      InsertBehind(q, k, t);
    }
  }

  lemma InsertBehind(q: seq<Tid>, k: nat, t: Tid)
    requires 1 <= k <= |q|
    ensures [q[0]] + (q[1..][..k - 1] + [t] + q[1..][k - 1..]) == q[..k] + [t] + q[k..]
  {
    assert q[1..][..k - 1] == q[1..k] && q[1..][k - 1..] == q[k..];
    assert [q[0]] + q[1..k] == q[..k];
  }

  /** The same, position by position. */
  lemma InsertAt(q: seq<Tid>, t: Tid, ts: seq<Thread>)
    requires InRange(q, ts) && t < |ts|
    ensures var k, r := Place(q, ts[t].priority, ts), Insert(q, t, ts);
            && |r| == |q| + 1 && r[k] == t
            && (forall i :: 0 <= i < k ==> r[i] == q[i])
            && (forall i :: k < i < |r| ==> r[i] == q[i - 1])
  {
    hide Insert, Place;
    InsertSplits(q, t, ts);
  }

  /** `enqueue` keeps the queue sorted, and in a sorted queue everything behind the new thread has lower priority. */
  lemma InsertKeepsSorted(q: seq<Tid>, t: Tid, ts: seq<Thread>)
    requires InRange(q, ts) && t < |ts| && Sorted(q, ts)
    ensures Sorted(Insert(q, t, ts), ts)
    ensures var k := Place(q, ts[t].priority, ts); forall i :: k <= i < |q| ==> ts[q[i]].priority < ts[t].priority
  {
    hide Insert, Place;
    InsertAt(q, t, ts);
  }

  lemma InsertMembers(q: seq<Tid>, t: Tid, ts: seq<Thread>)
    requires InRange(q, ts) && t < |ts|
    ensures forall x :: x in Insert(q, t, ts) <==> x in q || x == t
  {
    hide Insert, Place;
    InsertAt(q, t, ts);
    var k, r := Place(q, ts[t].priority, ts), Insert(q, t, ts);
    forall x | x in q ensures x in r {
      var i :| 0 <= i < |q| && q[i] == x;
      assert if i < k then r[i] == x else r[i + 1] == x;
    }
    forall x | x in r ensures x in q || x == t {
      var i :| 0 <= i < |r| && r[i] == x;
      assert i < k ==> q[i] == x;
      assert i > k ==> q[i - 1] == x;
    }
  }

  lemma InsertKeepsDistinct(q: seq<Tid>, t: Tid, ts: seq<Thread>)
    requires InRange(q, ts) && t < |ts| && NoDuplicates(q) && t !in q
    ensures NoDuplicates(Insert(q, t, ts))
  {
    hide Insert, Place;
    InsertAt(q, t, ts);
  }

  /** `dequeue` removes exactly the front and keeps the rest in order. */
  lemma DequeueMembers(q: seq<Tid>, ts: seq<Thread>)
    requires InRange(q, ts) && NoDuplicates(q) && Front(q, ts).Some?
    ensures forall x :: x in Dequeue(q, ts) <==> x in q && x != Front(q, ts).value
    ensures NoDuplicates(Dequeue(q, ts)) && |Dequeue(q, ts)| == |q| - 1
  {
    var i := FrontIndex(q, ts);
    var r := Dequeue(q, ts);
    forall x | x in q && x != q[i] ensures x in r {
      var j :| 0 <= j < |q| && q[j] == x;
      assert j < i ==> r[j] == x;
      assert j > i ==> r[j - 1] == x;
    }
    forall x | x in r ensures x in q && x != q[i] {
      var j :| 0 <= j < |r| && r[j] == x;
      assert r[j] == if j < i then q[j] else q[j + 1];
    }
  }

  lemma DequeueKeepsSorted(q: seq<Tid>, ts: seq<Thread>)
    requires InRange(q, ts) && Sorted(q, ts)
    ensures Sorted(Dequeue(q, ts), ts)
  {
  }

  /** The order of a queue depends on the priorities alone, not on the states that change under it. */
  predicate SamePriorities(ts: seq<Thread>, us: seq<Thread>) {
    |ts| <= |us| && forall t :: 0 <= t < |ts| ==> us[t].priority == ts[t].priority
  }

  lemma SortedStays(q: seq<Tid>, ts: seq<Thread>, us: seq<Thread>)
    requires InRange(q, ts) && SamePriorities(ts, us) && Sorted(q, ts)
    ensures InRange(q, us) && Sorted(q, us)
  {
  }

  /** The front is the first of the highest priority among the threads that do not wait. */
  lemma FrontIsHighest(q: seq<Tid>, ts: seq<Thread>)
    requires InRange(q, ts) && Sorted(q, ts)
    ensures var f := Front(q, ts);
            && (f.Some? <==> exists x :: x in q && !ts[x].state.Waiting?)
            && (f.Some? ==> f.value in q && !ts[f.value].state.Waiting?
                            && forall x :: x in q && !ts[x].state.Waiting? ==> ts[x].priority <= ts[f.value].priority)
  {
    var i := FrontIndex(q, ts);
    forall x | x in q && !ts[x].state.Waiting?
      ensures i < |q| && ts[x].priority <= ts[q[i]].priority
    {
      var j :| 0 <= j < |q| && q[j] == x;
      assert i <= j;
    }
  }

  /** A waiting thread that queues up does not change the front. */
  lemma {:induction false} FrontSkipsWaiter(q: seq<Tid>, t: Tid, ts: seq<Thread>)
    requires InRange(q, ts) && t < |ts| && ts[t].state.Waiting?
    ensures Front(Insert(q, t, ts), ts) == Front(q, ts)
    decreases |q|
  {
    var r := Insert(q, t, ts);
    if q == [] || ts[t].priority > ts[q[0]].priority {
      assert r[1..] == q;
      FrontCons(r, ts);
    } else {
      FrontSkipsWaiter(q[1..], t, ts);
      assert r[1..] == Insert(q[1..], t, ts);
      FrontCons(r, ts);
      FrontCons(q, ts);
    }
  }

  lemma FrontCons(q: seq<Tid>, ts: seq<Thread>)
    requires InRange(q, ts) && q != []
    ensures InRange(q[1..], ts)
    ensures Front(q, ts) == (if ts[q[0]].state.Waiting? then Front(q[1..], ts) else Some(q[0]))
  {
  }

  /** The front depends on the states of the queued threads alone. */
  lemma {:induction false} FrontStays(q: seq<Tid>, ts: seq<Thread>, us: seq<Thread>)
    requires InRange(q, ts) && InRange(q, us)
    requires forall i :: 0 <= i < |q| ==> (us[q[i]].state.Waiting? <==> ts[q[i]].state.Waiting?)
    ensures Front(q, us) == Front(q, ts)
    decreases |q|
  {
    if q != [] {
      FrontCons(q, ts);
      FrontCons(q, us);
      FrontStays(q[1..], ts, us);
    }
  }

  /** `dequeue`, position by position. */
  lemma DequeueAt(q: seq<Tid>, ts: seq<Thread>)
    requires InRange(q, ts)
    ensures var i, r := FrontIndex(q, ts), Dequeue(q, ts);
            if i < |q| then |r| == |q| - 1 && forall j :: 0 <= j < |r| ==> r[j] == if j < i then q[j] else q[j + 1]
            else r == q
  {
    hide FrontIndex;
  }

  /** The one thread is ahead of the other. */
  predicate Before(q: seq<Tid>, u: Tid, v: Tid) {
    exists i, j :: 0 <= i < j < |q| && q[i] == u && q[j] == v
  }

  lemma InsertKeepsOrder(q: seq<Tid>, t: Tid, ts: seq<Thread>, u: Tid, v: Tid)
    requires InRange(q, ts) && t < |ts| && Before(q, u, v)
    ensures Before(Insert(q, t, ts), u, v)
  {
    InsertAt(q, t, ts);
    var i, j :| 0 <= i < j < |q| && q[i] == u && q[j] == v;
    var k, r := Place(q, ts[t].priority, ts), Insert(q, t, ts);
    hide Insert, Place;
    var i', j' := if i < k then i else i + 1, if j < k then j else j + 1;
    assert r[i'] == u && r[j'] == v;
  }

  lemma DequeueKeepsOrder(q: seq<Tid>, ts: seq<Thread>, u: Tid, v: Tid)
    requires InRange(q, ts) && Before(q, u, v) && Front(q, ts) != Some(u) && Front(q, ts) != Some(v)
    ensures Before(Dequeue(q, ts), u, v)
  {
    DequeueAt(q, ts);
    var k, r := FrontIndex(q, ts), Dequeue(q, ts);
    assert k < |q| ==> q[k] != u && q[k] != v;
    hide FrontIndex, Dequeue, Front;
    var i, j :| 0 <= i < j < |q| && q[i] == u && q[j] == v;
    var i', j' := if i < k then i else i - 1, if j < k then j else j - 1;
    assert k < |q| ==> r[i'] == u && r[j'] == v;
  }

  // ---------------------------------------------------------------- any mix of operations

  datatype QueueOp = Enqueue(t: Tid) | TakeFront | Change(t: Tid, state: ThreadState, event: nat)

  /** The queue, the threads, and when each thread was last queued. */
  datatype History = History(q: seq<Tid>, ts: seq<Thread>, since: map<Tid, nat>, now: nat)

  /** A thread that is queued already is not queued again. */
  function Apply(h: History, op: QueueOp): (h': History)
    requires InRange(h.q, h.ts)
    ensures InRange(h'.q, h'.ts)
  {
    match op
    case Enqueue(t) =>
      if t < |h.ts| && t !in h.q then
        History(Insert(h.q, t, h.ts), h.ts, h.since[t := h.now], h.now + 1)
      else h
    case TakeFront => h.(q := Dequeue(h.q, h.ts))
    case Change(t, st, e) => if t < |h.ts| then h.(ts := h.ts[t := h.ts[t].(state := st, event := e)]) else h
  }

  function ApplyAll(h: History, ops: seq<QueueOp>): (h': History)
    requires InRange(h.q, h.ts)
    ensures InRange(h'.q, h'.ts)
    decreases |ops|
  {
    if ops == [] then h else ApplyAll(Apply(h, ops[0]), ops[1..])
  }

  /** Every thread once; by descending priority, and by arrival within a priority. */
  predicate Stable(h: History) {
    && InRange(h.q, h.ts) && NoDuplicates(h.q)
    && (forall i :: 0 <= i < |h.q| ==> h.q[i] in h.since && h.since[h.q[i]] < h.now)
    && forall i, j :: 0 <= i < j < |h.q| ==>
         || h.ts[h.q[i]].priority > h.ts[h.q[j]].priority
         || (h.ts[h.q[i]].priority == h.ts[h.q[j]].priority && h.since[h.q[i]] < h.since[h.q[j]])
  }

  lemma EnqueueKeepsStable(h: History, t: Tid)
    requires Stable(h) && t < |h.ts| && t !in h.q
    ensures Stable(Apply(h, Enqueue(t)))
  {
    hide Insert, Place;
    InsertAt(h.q, t, h.ts);
    InsertKeepsDistinct(h.q, t, h.ts);
    InsertKeepsSorted(h.q, t, h.ts);
    var k, h' := Place(h.q, h.ts[t].priority, h.ts), Apply(h, Enqueue(t));
    assert forall i :: 0 <= i < |h.q| ==> h.q[i] != t;
    assert forall i :: 0 <= i < |h'.q| ==> h'.q[i] == if i < k then h.q[i] else if i == k then t else h.q[i - 1];
  }

  lemma DequeueKeepsStable(h: History)
    requires Stable(h)
    ensures Stable(Apply(h, TakeFront))
  {
    DequeueAt(h.q, h.ts);
    hide Dequeue, FrontIndex;
    var k, r := FrontIndex(h.q, h.ts), Dequeue(h.q, h.ts);
    if k < |h.q| {
      forall i, j | 0 <= i < j < |r|
        ensures var a, b := if i < k then i else i + 1, if j < k then j else j + 1;
                a < b < |h.q| && r[i] == h.q[a] && r[j] == h.q[b]
      {
      }
      assert forall i :: 0 <= i < |r| ==> r[i] == h.q[if i < k then i else i + 1];
    }
  }

  /** Over any mix of operations and state changes the queue is a stable list by priority. */
  lemma {:induction false} QueueStaysStable(h: History, ops: seq<QueueOp>)
    requires Stable(h)
    ensures Stable(ApplyAll(h, ops))
    decreases |ops|
  {
    if ops != [] {
      match ops[0] {
        case Enqueue(t) => if t < |h.ts| && t !in h.q { EnqueueKeepsStable(h, t); }
        case TakeFront => DequeueKeepsStable(h);
        case Change(_, _, _) =>
      }
      QueueStaysStable(Apply(h, ops[0]), ops[1..]);
    }
  }
}
