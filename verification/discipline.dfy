/** The waiting queue's size rule: a short job jumps to the front, any other job joins the back. */
module Discipline {
  import opened Jobs
  import opened ArrivalOrder

  /** Position j of the day's list holds a short job. */
  predicate ShortAt(jobs: seq<Job>, j: nat) {
    j < |jobs| && IsShort(jobs[j])
  }

  /** Puts job j (a position in the day's list) into the waiting queue. */
  function Enqueue(jobs: seq<Job>, queue: seq<nat>, j: nat): (q: seq<nat>)
    ensures multiset(q) == multiset(queue) + multiset{j}
  {
    if ShortAt(jobs, j) then [j] + queue else queue + [j]
  }

  /** Puts the jobs of `batch` into the queue one at a time, first to last. */
  function EnqueueAll(jobs: seq<Job>, queue: seq<nat>, batch: seq<nat>): (q: seq<nat>)
    ensures |q| == |queue| + |batch|
    decreases |batch|
  {
    if batch == [] then queue
    else EnqueueAll(jobs, Enqueue(jobs, queue, batch[0]), batch[1..])
  }

  /** Admitting a batch loses no job and adds no other: the queue gains exactly the batch. */
  lemma {:induction false} EnqueueAllKeepsJobs(jobs: seq<Job>, queue: seq<nat>, batch: seq<nat>)
    ensures multiset(EnqueueAll(jobs, queue, batch)) == multiset(queue) + multiset(batch)
    decreases |batch|
  {
    if batch != [] {
      EnqueueAllKeepsJobs(jobs, Enqueue(jobs, queue, batch[0]), batch[1..]);
      assert batch == [batch[0]] + batch[1..];
    }
  }

  /** When jobs c and w both wait, c is taken first: a short job beats a long one, among short
      jobs the later admitted wins, and among long jobs the earlier admitted wins. */
  predicate Outranks(jobs: seq<Job>, c: nat, w: nat) {
    if ShortAt(jobs, w) then ShortAt(jobs, c) && Before(jobs, w, c)
    else ShortAt(jobs, c) || Before(jobs, c, w)
  }

  /** Outranking is a strict total order on the day's positions: never both ways, one way or
      the other between any two different jobs, and transitive. */
  lemma OutranksOrders(jobs: seq<Job>, c: nat, w: nat, x: nat)
    ensures !(Outranks(jobs, c, w) && Outranks(jobs, w, c))
    ensures c < |jobs| && w < |jobs| && c != w ==> Outranks(jobs, c, w) || Outranks(jobs, w, c)
    ensures Outranks(jobs, c, w) && Outranks(jobs, w, x) ==> Outranks(jobs, c, x)
  {
    BeforeOrders(jobs, c, w, x);
    BeforeOrders(jobs, x, w, c);
  }

  /** The queue is kept in the order it will be served: each job outranks every job behind it. */
  ghost predicate Disciplined(jobs: seq<Job>, queue: seq<nat>) {
    forall p, r :: 0 <= p < r < |queue| ==> Outranks(jobs, queue[p], queue[r])
  }

  /** Every job of `queue` was admitted before every job of `batch`. */
  ghost predicate AdmittedBefore(jobs: seq<Job>, queue: seq<nat>, batch: seq<nat>) {
    forall i, k :: 0 <= i < |queue| && 0 <= k < |batch| ==> Before(jobs, queue[i], batch[k])
  }

  /** Putting in a job admitted after everything waiting keeps the queue in serving order. */
  lemma EnqueueDisciplined(jobs: seq<Job>, queue: seq<nat>, j: nat)
    requires Disciplined(jobs, queue) && AdmittedBefore(jobs, queue, [j])
    ensures Disciplined(jobs, Enqueue(jobs, queue, j))
  {
    var q := Enqueue(jobs, queue, j);
    forall p, r | 0 <= p < r < |q|
      ensures Outranks(jobs, q[p], q[r])
    {
      if ShortAt(jobs, j) {
        if p == 0 {
          assert Before(jobs, queue[r - 1], [j][0]);
        } else {
          assert q[p] == queue[p - 1] && q[r] == queue[r - 1];
        }
      } else if r == |queue| {
        assert Before(jobs, queue[p], [j][0]);
      }
    }
  }

  /** The job just put in was admitted before the rest of its batch, like everything waiting. */
  lemma EnqueueAdmittedBefore(jobs: seq<Job>, queue: seq<nat>, batch: seq<nat>)
    requires batch != [] && Sorted(jobs, batch) && AdmittedBefore(jobs, queue, batch)
    ensures AdmittedBefore(jobs, Enqueue(jobs, queue, batch[0]), batch[1..])
  {
    var q := Enqueue(jobs, queue, batch[0]);
    forall i, k | 0 <= i < |q| && 0 <= k < |batch| - 1
      ensures Before(jobs, q[i], batch[1..][k])
    {
      assert batch[1..][k] == batch[k + 1];
      if q[i] != batch[0] {
        var i' := if ShortAt(jobs, batch[0]) then i - 1 else i;
        assert q[i] == queue[i'];
      }
    }
  }

  /** Admitting a batch in arrival order, all after everything waiting, keeps the queue in
      serving order. */
  lemma {:induction false} EnqueueAllDisciplined(jobs: seq<Job>, queue: seq<nat>, batch: seq<nat>)
    requires Disciplined(jobs, queue) && Sorted(jobs, batch) && AdmittedBefore(jobs, queue, batch)
    ensures Disciplined(jobs, EnqueueAll(jobs, queue, batch))
    decreases |batch|
  {
    if batch != [] {
      assert AdmittedBefore(jobs, queue, [batch[0]]) by {
        assert forall i :: 0 <= i < |queue| ==> Before(jobs, queue[i], batch[0]);
      }
      EnqueueDisciplined(jobs, queue, batch[0]);
      EnqueueAdmittedBefore(jobs, queue, batch);
      SortedTail(jobs, batch);
      EnqueueAllDisciplined(jobs, Enqueue(jobs, queue, batch[0]), batch[1..]);
    }
  }

  function Reverse(s: seq<nat>): seq<nat> {
    if s == [] then [] else Reverse(s[1..]) + [s[0]]
  }

  /** The short jobs of a batch, in batch order. */
  function Shorts(jobs: seq<Job>, batch: seq<nat>): seq<nat>
  {
    if batch == [] then []
    else if ShortAt(jobs, batch[0]) then [batch[0]] + Shorts(jobs, batch[1..])
    else Shorts(jobs, batch[1..])
  }

  /** The long jobs of a batch, in batch order. */
  function Longs(jobs: seq<Job>, batch: seq<nat>): seq<nat>
  {
    if batch == [] then []
    else if ShortAt(jobs, batch[0]) then Longs(jobs, batch[1..])
    else [batch[0]] + Longs(jobs, batch[1..])
  }

  /** Admitting a batch puts its short jobs in front of the old queue, last admitted first, and
      its long jobs behind it, first admitted first. */
  lemma {:induction false} EnqueueAllShape(jobs: seq<Job>, queue: seq<nat>, batch: seq<nat>)
    ensures EnqueueAll(jobs, queue, batch) == Reverse(Shorts(jobs, batch)) + queue + Longs(jobs, batch)
    decreases |batch|
  {
    if batch != [] {
      var b, rest := batch[0], batch[1..];
      var next := Enqueue(jobs, queue, b);
      EnqueueAllShape(jobs, next, rest);
      var front, back := Reverse(Shorts(jobs, rest)), Longs(jobs, rest);
      if ShortAt(jobs, b) {
        ReverseCons(b, Shorts(jobs, rest));
        Regroup(front, [b], queue, back);
      } else {
        Regroup(front, queue, [b], back);
      }
    }
  }

  lemma ReverseCons(x: nat, s: seq<nat>)
    ensures Reverse([x] + s) == Reverse(s) + [x]
  {
    assert ([x] + s)[1..] == s;
  }

  lemma Regroup(a: seq<nat>, b: seq<nat>, c: seq<nat>, d: seq<nat>)
    ensures a + b + c + d == a + (b + c) + d == a + b + (c + d)
  {
  }

  /** Short jobs admitted together are served last-admitted-first. */
  lemma ShortBatchReversed(jobs: seq<Job>, queue: seq<nat>, batch: seq<nat>)
    requires forall k :: 0 <= k < |batch| ==> ShortAt(jobs, batch[k])
    ensures EnqueueAll(jobs, queue, batch) == Reverse(batch) + queue
  {
    EnqueueAllShape(jobs, queue, batch);
    AllShort(jobs, batch);
  }

  /** Long jobs admitted together are served first-admitted-first. */
  lemma LongBatchInOrder(jobs: seq<Job>, queue: seq<nat>, batch: seq<nat>)
    requires forall k :: 0 <= k < |batch| ==> !ShortAt(jobs, batch[k])
    ensures EnqueueAll(jobs, queue, batch) == queue + batch
  {
    EnqueueAllShape(jobs, queue, batch);
    AllLong(jobs, batch);
  }

  lemma {:induction false} AllShort(jobs: seq<Job>, batch: seq<nat>)
    requires forall k :: 0 <= k < |batch| ==> ShortAt(jobs, batch[k])
    ensures Shorts(jobs, batch) == batch && Longs(jobs, batch) == []
  {
    if batch != [] {
      AllShort(jobs, batch[1..]);
    }
  }

  lemma {:induction false} AllLong(jobs: seq<Job>, batch: seq<nat>)
    requires forall k :: 0 <= k < |batch| ==> !ShortAt(jobs, batch[k])
    ensures Longs(jobs, batch) == batch && Shorts(jobs, batch) == []
  {
    if batch != [] {
      AllLong(jobs, batch[1..]);
    }
  }
}
