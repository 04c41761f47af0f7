/** Jobs of one day as they are submitted, and what a simulation pass writes on them. */
module Jobs {

  /** Jobs taking at most this many minutes are short; the bound itself counts as short. */
  const ShortLimit: real := 5.0

  /** A submitted job: its arrival in minutes after opening and the minutes of service it needs. */
  datatype Job = Job(arrival: real, duration: real)

  /** What a simulation pass writes on a job: the minute its service began and how long it waited. */
  datatype Slot = Slot(start: real, delay: real)

  /** A slot agrees with its job: service starts no earlier than arrival and the delay is the wait. */
  predicate Consistent(job: Job, slot: Slot) {
    job.arrival <= slot.start && slot.delay == slot.start - job.arrival
  }

  predicate IsShort(j: Job) {
    j.duration <= ShortLimit
  }

  /** The only jobs that are ever recorded: arriving no earlier than opening, taking some time. */
  predicate Valid(j: Job) {
    j.arrival >= 0.0 && j.duration > 0.0
  }

  predicate AllValid(jobs: seq<Job>) {
    forall k :: 0 <= k < |jobs| ==> Valid(jobs[k])
  }

  /** The larger of two times. */
  function Later(a: real, b: real): real {
    if a >= b then a else b
  }

  /** Sum of the delays of a day's slots. */
  function TotalDelay(slots: seq<Slot>): real {
    if |slots| == 0 then 0.0 else TotalDelay(slots[..|slots| - 1]) + slots[|slots| - 1].delay
  }

  /** Average delay of a day: total delay over the number of jobs, 0 for an empty day. */
  function Average(slots: seq<Slot>): (a: real)
    ensures |slots| == 0 ==> a == 0.0
    ensures |slots| > 0 ==> a * (|slots| as real) == TotalDelay(slots)
  {
    if |slots| == 0 then 0.0 else TotalDelay(slots) / (|slots| as real)
  }

  /** The positions 0, 1, ..., n - 1 of a day's list. */
  function Indices(n: nat): seq<nat> {
    if n == 0 then [] else Indices(n - 1) + [n - 1]
  }

  /** `order` names every position of an n-job day exactly once. */
  ghost predicate IsPermutation(order: seq<nat>, n: nat) {
    multiset(order) == multiset(Indices(n))
  }

  lemma {:induction false} IndicesCount(n: nat, x: nat)
    ensures |Indices(n)| == n
    ensures multiset(Indices(n))[x] == if x < n then 1 else 0
  {
    if n > 0 {
      IndicesCount(n - 1, x);
    }
  }

  /** A permutation of the positions has the right length and stays in range. */
  lemma PermutationBounds(order: seq<nat>, n: nat)
    requires IsPermutation(order, n)
    ensures |order| == n
    ensures forall k :: 0 <= k < |order| ==> order[k] < n
  {
    IndicesCount(n, 0);
    assert |multiset(order)| == |multiset(Indices(n))|;
    forall k | 0 <= k < |order|
      ensures order[k] < n
    {
      assert order[k] in multiset(order);
      IndicesCount(n, order[k]);
    }
  }

  /** A permutation of the positions repeats none of them. */
  lemma PermutationDistinct(order: seq<nat>, n: nat)
    requires IsPermutation(order, n)
    ensures forall x: nat :: multiset(order)[x] <= 1
  {
    forall x: nat
      ensures multiset(order)[x] <= 1
    {
      IndicesCount(n, x);
    }
  }

  /** A permutation of the positions misses none of them. */
  lemma PermutationComplete(order: seq<nat>, n: nat)
    requires IsPermutation(order, n)
    ensures forall x: nat :: x < n ==> x in order
  {
    forall x: nat | x < n
      ensures x in order
    {
      IndicesCount(n, x);
      assert x in multiset(order);
    }
  }
}
