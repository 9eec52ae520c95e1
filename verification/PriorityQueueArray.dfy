/** The array behind the queue of the scheduler. Threads are named by their position in the registry `ts`. */
module PriorityQueueArray {
  import opened Options
  import opened ReadyQueue

  /** `pq_t`; `q` is null until the first thread queues up. */
  class PriorityQueue {
    var q: array?<Tid>
    var size: nat
    var capacity: nat

    /** There is a free slot below the capacity, and the slots in use are allocated, though the first allocation has
        one slot while the capacity is two. */
    ghost predicate Valid()
      reads this
    {
      && size < capacity
      && (q == null ==> size == 0 && capacity == 1)
      && (q != null ==> size <= q.Length && (q.Length == capacity || (q.Length == 1 && capacity == 2)))
    }

    /** The queued threads in order. */
    ghost function Contents(): (s: seq<Tid>)
      reads this, q
      requires Valid()
      ensures |s| == size
    {
      if q == null then [] else q[..size]
    }

    /** `pq_create` */
    constructor ()
      ensures Valid() && Contents() == [] && q == null
    {
      q, size, capacity := null, 0, 1;
    }

    /** `alloc_memory_for_pq`: twice the capacity, except that the first allocation is for one slot. */
    method AllocMemory()
      requires q != null ==> q.Length <= 2 * capacity
      modifies this
      ensures size == old(size) && capacity == 2 * old(capacity)
      ensures q != null && fresh(q) && q.Length == (if old(q) == null then 1 else capacity)
      ensures old(q) != null ==> forall i :: 0 <= i < old(q).Length ==> q[i] == old(q[i])
    {
      capacity := capacity * 2;
      if q != null {
        var r := new Tid[capacity];
        for i := 0 to q.Length
          invariant forall j :: 0 <= j < i ==> r[j] == q[j]
          modifies r
        {
          r[i] := q[i];
        }
        q := r;
      } else {
        q := new Tid[1];
      }
    }

    /** The inner loop of `enqueue`: from position `i` on, everything moves up by one slot. */
    method ShiftRight(i: nat)
      requires q != null && i < size <= q.Length
      modifies q
      ensures forall k :: 0 <= k <= i ==> q[k] == old(q[k])
      ensures forall k :: i < k < size ==> q[k] == old(q[k - 1])
    {
      var j := size - 1;
      while j > i
        invariant i <= j <= size - 1
        invariant forall k :: 0 <= k <= j ==> q[k] == old(q[k])
        invariant forall k :: j < k < size ==> q[k] == old(q[k - 1])
      {
        q[j] := q[j - 1];
        j := j - 1;
      }
    }

    /** The inner loop of `dequeue`: from behind position `i`, everything moves down by one slot. */
    method ShiftLeft(i: nat)
      requires q != null && i < size <= q.Length
      modifies q
      ensures forall k :: 0 <= k < i ==> q[k] == old(q[k])
      ensures forall k :: i <= k < size - 1 ==> q[k] == old(q[k + 1])
    {
      var j := i;
      while j < size - 1
        invariant i <= j <= size - 1
        invariant forall k :: 0 <= k < i ==> q[k] == old(q[k])
        invariant forall k :: i <= k < j ==> q[k] == old(q[k + 1])
        invariant forall k :: j <= k < size ==> q[k] == old(q[k])
      {
        q[j] := q[j + 1];
        j := j + 1;
      }
    }

    /** `enqueue` */
    method Enqueue(t: Tid, ts: seq<Thread>)
      requires Valid() && InRange(Contents(), ts) && t < |ts|
      modifies this, q
      ensures Valid() && (q == old(q) || fresh(q))
      ensures Contents() == Insert(old(Contents()), t, ts)
    {
      hide Insert;
      ghost var was := Contents();
      size := size + 1;
      if size == capacity { AllocMemory(); }
      q[size - 1] := t;
      assert forall k :: 0 <= k < |was| ==> q[k] == was[k];
      var i := 0;
      while i < size - 1
        invariant 0 <= i <= size - 1 && q[size - 1] == t
        invariant forall k :: 0 <= k < |was| ==> q[k] == was[k]
        invariant forall k :: 0 <= k < i ==> ts[t].priority <= ts[was[k]].priority
        modifies q
      {
        if ts[t].priority > ts[q[i]].priority {
          ShiftRight(i);
          q[i] := t;
          break;
        }
        i := i + 1;
      }
      IsInserted(was, t, ts, i, q[..size]);
    }

    /** `front`: the first thread that does not wait. */
    method FrontThread(ts: seq<Thread>) returns (r: Option<Tid>)
      requires Valid() && InRange(Contents(), ts)
      ensures r == Front(Contents(), ts)
    {
      var i := 0;
      while i < size
        invariant 0 <= i <= size
        invariant forall k :: 0 <= k < i ==> ts[Contents()[k]].state.Waiting?
      {
        if !ts[q[i]].state.Waiting? { return Some(q[i]); }
        i := i + 1;
      }
      return None;
    }

    /** `dequeue`: the same thread, taken out of the queue. */
    method DequeueThread(ts: seq<Thread>) returns (r: Option<Tid>)
      requires Valid() && InRange(Contents(), ts)
      modifies this`size, q
      ensures Valid() && r == Front(old(Contents()), ts)
      ensures Contents() == Dequeue(old(Contents()), ts)
    {
      ghost var was := Contents();
      var i := 0;
      while i < size
        invariant 0 <= i <= size == |was| && Valid() && Contents() == was
        invariant forall k :: 0 <= k < i ==> ts[was[k]].state.Waiting?
        modifies this`size, q
      {
        if !ts[q[i]].state.Waiting? {
          var thread := q[i];
          ShiftLeft(i);
          size := size - 1;
          assert q[..size] == was[..i] + was[i + 1..];
          return Some(thread);
        }
        i := i + 1;
      }
      return None;
    }
  }

  /** The result of shifting is the inserted queue. */
  lemma IsInserted(q: seq<Tid>, t: Tid, ts: seq<Thread>, i: nat, r: seq<Tid>)
    requires InRange(q, ts) && t < |ts| && i <= |q| && |r| == |q| + 1
    requires forall k :: 0 <= k < i ==> ts[t].priority <= ts[q[k]].priority
    requires i < |q| ==> ts[t].priority > ts[q[i]].priority
    requires r[i] == t && (forall k :: 0 <= k < i ==> r[k] == q[k]) && (forall k :: i < k < |r| ==> r[k] == q[k - 1])
    ensures r == Insert(q, t, ts)
  {
    hide Insert, Place;
    InsertAt(q, t, ts);
    assert i == Place(q, ts[t].priority, ts);
  }
}
