/** One day's event loop as a state machine. A pass of the loop body admits the arrivals that are
    due, frees the machine if its job is done, starts the next waiting job if the machine is free,
    and then moves the clock to the next arrival or completion. */
module Machine {
  import opened Wrappers
  import opened Jobs
  import opened Discipline

  /** The loop's local state. Jobs are named by their position in the day's list.
      `cursor` is how many jobs of the arrival order have been admitted, `running` is the job on
      the machine, `slots[j]` is what has been written on job j so far, `served` lists the
      dispatched jobs in dispatch order, and `total` and `count` are the running delay sum and
      number of dispatches. */
  datatype State = State(
    clock: real,
    cursor: nat,
    queue: seq<nat>,
    running: Option<nat>,
    slots: seq<Option<Slot>>,
    served: seq<nat>,
    total: real,
    count: nat)

  /** The state a day starts from: clock at opening, nothing admitted, nothing written. */
  function Initial(n: nat): (s: State)
    ensures s.clock == 0.0 && s.cursor == 0 && s.queue == [] && s.running.None?
    ensures |s.slots| == n && forall j :: 0 <= j < n ==> s.slots[j].None?
    ensures s.served == [] && s.total == 0.0 && s.count == 0
  {
    State(0.0, 0, [], None, seq(n, _ => None), [], 0.0, 0)
  }

  /** There is one slot per job, and every dispatched job is a job of the day with its slot written. */
  ghost predicate Logged(jobs: seq<Job>, slots: seq<Option<Slot>>, served: seq<nat>) {
    && |slots| == |jobs|
    && (forall t :: 0 <= t < |served| ==> served[t] < |jobs| && slots[served[t]].Some?)
  }

  /** Every job the state mentions is a job of the day, and every dispatched job has its slot. */
  ghost predicate Shaped(jobs: seq<Job>, order: seq<nat>, s: State) {
    && |order| == |jobs|
    && (forall k :: 0 <= k < |order| ==> order[k] < |jobs|)
    && Logged(jobs, s.slots, s.served)
    && s.cursor <= |order|
    && (forall x :: x in s.queue ==> x < |jobs|)
    && (s.running.Some? ==> s.running.value < |jobs| && s.slots[s.running.value].Some?)
  }

  /** The minute dispatched job j went onto the machine. */
  function StartOf(slots: seq<Option<Slot>>, j: nat): real
    requires j < |slots| && slots[j].Some?
  {
    slots[j].value.start
  }

  /** The minute dispatched job j leaves the machine. */
  function Completion(jobs: seq<Job>, slots: seq<Option<Slot>>, j: nat): real
    requires j < |jobs| && j < |slots| && slots[j].Some?
  {
    slots[j].value.start + jobs[j].duration
  }

  /** The loop keeps going while arrivals remain, jobs wait, or the machine is busy. */
  predicate Active(order: seq<nat>, s: State) {
    s.cursor < |order| || |s.queue| > 0 || s.running.Some?
  }

  /** Admits, in arrival order, every job that has arrived by the current clock. */
  function Admit(jobs: seq<Job>, order: seq<nat>, s: State): (r: State)
    requires Shaped(jobs, order, s)
    ensures Shaped(jobs, order, r)
    ensures r == s.(cursor := r.cursor, queue := r.queue)
    ensures s.cursor <= r.cursor
    ensures forall k :: s.cursor <= k < r.cursor ==> jobs[order[k]].arrival <= s.clock
    ensures r.cursor < |order| ==> jobs[order[r.cursor]].arrival > s.clock
    ensures r.queue == EnqueueAll(jobs, s.queue, order[s.cursor..r.cursor])
  {
    var (cursor, queue) := AdmitFrom(jobs, order, s.clock, s.cursor, s.queue);
    AdmitFromDue(jobs, order, s.clock, s.cursor, s.queue);
    AdmitFromStops(jobs, order, s.clock, s.cursor, s.queue);
    AdmitFromEnqueues(jobs, order, s.clock, s.cursor, s.queue);
    AdmitBounded(jobs, order, s.queue, order[s.cursor..cursor]);
    s.(cursor := cursor, queue := queue)
  }

  /** Admitting jobs of the day into a queue of jobs of the day leaves only jobs of the day. */
  lemma AdmitBounded(jobs: seq<Job>, order: seq<nat>, queue: seq<nat>, batch: seq<nat>)
    requires forall x :: x in queue ==> x < |jobs|
    requires forall x :: x in batch ==> x < |jobs|
    ensures forall x :: x in EnqueueAll(jobs, queue, batch) ==> x < |jobs|
  {
    EnqueueAllKeepsJobs(jobs, queue, batch);
    forall x | x in EnqueueAll(jobs, queue, batch)
      ensures x < |jobs|
    {
      assert x in multiset(EnqueueAll(jobs, queue, batch));
      assert x in queue || x in batch;
    }
  }

  /** The admission loop on its own: from `cursor`, moves every job of the arrival order that has
      arrived by `clock` into the queue, and stops at the first one that has not. */
  function AdmitFrom(jobs: seq<Job>, order: seq<nat>, clock: real, cursor: nat, queue: seq<nat>)
    : (r: (nat, seq<nat>))
    requires cursor <= |order| && forall k :: 0 <= k < |order| ==> order[k] < |jobs|
    ensures cursor <= r.0 <= |order|
    decreases |order| - cursor
  {
    if cursor < |order| && jobs[order[cursor]].arrival <= clock then
      AdmitFrom(jobs, order, clock, cursor + 1, Enqueue(jobs, queue, order[cursor]))
    else
      (cursor, queue)
  }

  /** The admission loop takes only jobs that have arrived by `clock`. */
  lemma {:induction false} AdmitFromDue(jobs: seq<Job>, order: seq<nat>, clock: real, cursor: nat,
                                        queue: seq<nat>)
    requires cursor <= |order| && forall k :: 0 <= k < |order| ==> order[k] < |jobs|
    ensures forall k :: cursor <= k < AdmitFrom(jobs, order, clock, cursor, queue).0 ==>
      jobs[order[k]].arrival <= clock
    decreases |order| - cursor
  {
    if cursor < |order| && jobs[order[cursor]].arrival <= clock {
      AdmitFromDue(jobs, order, clock, cursor + 1, Enqueue(jobs, queue, order[cursor]));
    }
  }

  /** The admission loop stops at the first job that has not yet arrived. */
  lemma {:induction false} AdmitFromStops(jobs: seq<Job>, order: seq<nat>, clock: real, cursor: nat,
                                          queue: seq<nat>)
    requires cursor <= |order| && forall k :: 0 <= k < |order| ==> order[k] < |jobs|
    ensures var c := AdmitFrom(jobs, order, clock, cursor, queue).0;
      c < |order| ==> jobs[order[c]].arrival > clock
    decreases |order| - cursor
  {
    if cursor < |order| && jobs[order[cursor]].arrival <= clock {
      AdmitFromStops(jobs, order, clock, cursor + 1, Enqueue(jobs, queue, order[cursor]));
    }
  }

  /** The admission loop puts the jobs it takes into the queue one at a time, in arrival order. */
  lemma {:induction false} AdmitFromEnqueues(jobs: seq<Job>, order: seq<nat>, clock: real, cursor: nat,
                                             queue: seq<nat>)
    requires cursor <= |order| && forall k :: 0 <= k < |order| ==> order[k] < |jobs|
    ensures var r := AdmitFrom(jobs, order, clock, cursor, queue);
      r.1 == EnqueueAll(jobs, queue, order[cursor..r.0])
    decreases |order| - cursor
  {
    if cursor < |order| && jobs[order[cursor]].arrival <= clock {
      var next := Enqueue(jobs, queue, order[cursor]);
      AdmitFromEnqueues(jobs, order, clock, cursor + 1, next);
      var r := AdmitFrom(jobs, order, clock, cursor + 1, next);
      EnqueueAllFirst(jobs, queue, order[cursor..r.0], order[cursor + 1..r.0]);
    }
  }

  /** Admitting a batch admits its first job, then the rest. */
  lemma EnqueueAllFirst(jobs: seq<Job>, queue: seq<nat>, batch: seq<nat>, rest: seq<nat>)
    requires |batch| > 0 && rest == batch[1..]
    ensures EnqueueAll(jobs, queue, batch) == EnqueueAll(jobs, Enqueue(jobs, queue, batch[0]), rest)
  {
  }

  /** Frees the machine once the clock has reached its job's completion. */
  function Release(jobs: seq<Job>, order: seq<nat>, s: State): (r: State)
    requires Shaped(jobs, order, s)
    ensures Shaped(jobs, order, r)
    ensures r == s.(running := r.running)
    ensures r.running.None? <==>
      s.running.None? || s.clock >= Completion(jobs, s.slots, s.running.value)
    ensures r.running.Some? ==> r.running == s.running
  {
    if s.running.Some? && s.clock >= Completion(jobs, s.slots, s.running.value) then s.(running := None)
    else s
  }

  /** Starts the job at the front of the queue if the machine is free, recording its start and
      its delay clamped at zero. */
  function Dispatch(jobs: seq<Job>, order: seq<nat>, s: State): (r: State)
    requires Shaped(jobs, order, s)
    ensures Shaped(jobs, order, r)
    ensures s.running.None? && |s.queue| > 0 ==>
      var j := s.queue[0];
      j in s.queue &&
      var delay := if s.clock - jobs[j].arrival > 0.0 then s.clock - jobs[j].arrival else 0.0;
      && r.running == Some(j) && r.queue == s.queue[1..]
      && r.slots[j] == Some(Slot(s.clock, delay))
      && (forall i :: 0 <= i < |s.slots| && i != j ==> r.slots[i] == s.slots[i])
      && |r.slots| == |s.slots|
      && r.served == s.served + [j] && r.total == s.total + delay && r.count == s.count + 1
      && r.clock == s.clock && r.cursor == s.cursor
    ensures !(s.running.None? && |s.queue| > 0) ==> r == s
  {
    if s.running.None? && |s.queue| > 0 then
      var j := s.queue[0];
      assert j in s.queue;
      assert forall x :: x in s.queue[1..] ==> x in s.queue;
      var wait := s.clock - jobs[j].arrival;
      var delay := if wait > 0.0 then wait else 0.0;
      s.(running := Some(j), queue := s.queue[1..],
         slots := s.slots[j := Some(Slot(s.clock, delay))],
         served := s.served + [j], total := s.total + delay, count := s.count + 1)
    else
      s
  }

  /** Everything one pass of the loop does before the clock moves. */
  function Settle(jobs: seq<Job>, order: seq<nat>, s: State): (r: State)
    requires Shaped(jobs, order, s)
    ensures Shaped(jobs, order, r)
  {
    Dispatch(jobs, order, Release(jobs, order, Admit(jobs, order, s)))
  }

  /** The earlier of the next arrival and the running job's completion; None when neither exists.
      On a tie the arrival is taken, which is the same minute. */
  function NextEvent(jobs: seq<Job>, order: seq<nat>, s: State): (e: Option<real>)
    requires Shaped(jobs, order, s)
    ensures e.None? <==> s.cursor == |order| && s.running.None?
    ensures s.cursor < |order| ==> e.Some? && e.value <= jobs[order[s.cursor]].arrival
    ensures s.running.Some? ==> e.Some? && e.value <= Completion(jobs, s.slots, s.running.value)
    ensures e.Some? ==>
      || (s.cursor < |order| && e.value == jobs[order[s.cursor]].arrival)
      || (s.running.Some? && e.value == Completion(jobs, s.slots, s.running.value))
  {
    var arrival := if s.cursor < |order| then Some(jobs[order[s.cursor]].arrival) else None;
    if s.running.Some? then
      var completion := Completion(jobs, s.slots, s.running.value);
      if arrival.None? || completion < arrival.value then Some(completion) else arrival
    else
      arrival
  }
}
