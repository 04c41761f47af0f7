/** What stays true of the event loop's state from one pass to the next, and why each phase of a
    pass keeps it. Each invariant reads only the fields it is about, so a phase that leaves those
    fields alone keeps it for free. */
module Invariants {
  import opened Wrappers
  import opened Jobs
  import opened ArrivalOrder
  import opened Discipline
  import opened Machine

  /** What the loop may rely on about its input: recorded jobs are valid, and `order` is the
      day's positions sorted by arrival with ties kept in entry order. */
  ghost predicate Context(jobs: seq<Job>, order: seq<nat>) {
    AllValid(jobs) && IsPermutation(order, |jobs|) && Sorted(jobs, order)
  }

  /** Sum of the delays written so far. */
  function SumDelays(slots: seq<Option<Slot>>): real {
    if |slots| == 0 then 0.0
    else SumDelays(slots[..|slots| - 1]) + (if slots[|slots| - 1].Some? then slots[|slots| - 1].value.delay else 0.0)
  }

  /** No job outside `done` arrives before `time`. */
  ghost predicate NoneWaiting(jobs: seq<Job>, done: seq<nat>, time: real) {
    forall j :: 0 <= j < |jobs| && j !in done ==> time <= jobs[j].arrival
  }

  // ---- The dispatch history: slots and dispatch order ----

  /** Only dispatched jobs have a slot written. */
  ghost predicate Written(slots: seq<Option<Slot>>, served: seq<nat>) {
    forall j :: 0 <= j < |slots| && slots[j].Some? ==> j in served
  }

  /** Written slots agree with their jobs and lie no later than `clock`. */
  ghost predicate Stamped(jobs: seq<Job>, slots: seq<Option<Slot>>, clock: real)
    requires |slots| == |jobs|
  {
    forall j :: 0 <= j < |slots| && slots[j].Some? ==>
      Consistent(jobs[j], slots[j].value) && slots[j].value.start <= clock
  }

  /** Each dispatched job after the first starts at the later of its arrival and its
      predecessor's completion. */
  ghost predicate Chained(jobs: seq<Job>, slots: seq<Option<Slot>>, served: seq<nat>)
    requires Logged(jobs, slots, served)
  {
    forall t :: 0 < t < |served| ==>
      StartOf(slots, served[t]) == Later(jobs[served[t]].arrival, Completion(jobs, slots, served[t - 1]))
  }

  /** The t-th dispatch found the machine idle: it is the first, or its predecessor finished earlier. */
  ghost predicate IdleBefore(jobs: seq<Job>, slots: seq<Option<Slot>>, served: seq<nat>, t: nat)
    requires Logged(jobs, slots, served) && t < |served|
  {
    t == 0 || Completion(jobs, slots, served[t - 1]) < StartOf(slots, served[t])
  }

  /** The machine only sits idle while nobody waits: a dispatch onto an idle machine happens at a
      minute before which no job still to be dispatched had arrived. */
  ghost predicate Prompt(jobs: seq<Job>, slots: seq<Option<Slot>>, served: seq<nat>)
    requires Logged(jobs, slots, served)
  {
    forall t :: 0 <= t < |served| && IdleBefore(jobs, slots, served, t) ==>
      NoneWaiting(jobs, served[..t], StartOf(slots, served[t]))
  }

  /** Each dispatched job outranks every job that had arrived by its start and was still to be
      dispatched: the machine always takes the waiting job the queue rule puts first. */
  ghost predicate Prioritized(jobs: seq<Job>, slots: seq<Option<Slot>>, served: seq<nat>)
    requires Logged(jobs, slots, served)
  {
    forall t, w ::
      (0 <= t < |served| && 0 <= w < |jobs| && w !in served[..t + 1] &&
       jobs[w].arrival <= StartOf(slots, served[t])) ==> Outranks(jobs, served[t], w)
  }

  // ---- The loop's bookkeeping ----

  /** Every waiting job has arrived by `clock`. */
  ghost predicate Arrived(jobs: seq<Job>, queue: seq<nat>, clock: real) {
    forall x :: x in queue ==> x < |jobs| && jobs[x].arrival <= clock
  }

  /** Every admitted job is either waiting or dispatched, exactly once. */
  ghost predicate Admitted(order: seq<nat>, s: State) {
    s.cursor <= |order| && multiset(s.queue) + multiset(s.served) == multiset(order[..s.cursor])
  }

  /** The running sums agree with the slots. */
  ghost predicate Totals(s: State) {
    s.count == |s.served| && s.total == SumDelays(s.slots)
  }

  /** The running job is the last one dispatched, and once freed it has finished by now. */
  ghost predicate Tracking(jobs: seq<Job>, s: State)
    requires Logged(jobs, s.slots, s.served)
  {
    && (s.running.Some? ==> |s.served| > 0 && s.running.value == s.served[|s.served| - 1])
    && (s.running.None? && |s.served| > 0 ==> Completion(jobs, s.slots, s.served[|s.served| - 1]) <= s.clock)
  }

  ghost predicate Core(jobs: seq<Job>, order: seq<nat>, s: State) {
    && Shaped(jobs, order, s)
    && Admitted(order, s)
    && Written(s.slots, s.served)
    && Totals(s)
    && Stamped(jobs, s.slots, s.clock)
    && Arrived(jobs, s.queue, s.clock)
    && Disciplined(jobs, s.queue)
    && Tracking(jobs, s)
    && Chained(jobs, s.slots, s.served)
    && Prompt(jobs, s.slots, s.served)
    && Prioritized(jobs, s.slots, s.served)
  }

  /** The state at the head of the loop: the clock sits no later than the running job's
      completion or any pending arrival, and an idle machine has nobody waiting. */
  ghost predicate Head(jobs: seq<Job>, order: seq<nat>, s: State) {
    && Core(jobs, order, s)
    && (s.running.Some? ==> s.clock <= Completion(jobs, s.slots, s.running.value))
    && (s.running.None? ==> s.queue == [])
    && (forall k :: s.cursor <= k < |order| ==> s.clock <= jobs[order[k]].arrival)
  }

  /** No job beyond the cursor has arrived by now: admission has taken every arrival due. */
  ghost predicate Unreached(jobs: seq<Job>, order: seq<nat>, s: State)
    requires Shaped(jobs, order, s)
  {
    forall k :: s.cursor <= k < |order| ==> s.clock < jobs[order[k]].arrival
  }

  /** The machine may take the front job now: it was just freed, or nobody still to be
      dispatched arrived before now. */
  ghost predicate Ready(jobs: seq<Job>, s: State)
    requires Logged(jobs, s.slots, s.served)
  {
    || (|s.served| > 0 && s.clock == Completion(jobs, s.slots, s.served[|s.served| - 1]))
    || NoneWaiting(jobs, s.served, s.clock)
  }

  /** The loop has nothing left: every job admitted, none waiting, the machine free. */
  predicate Finished(order: seq<nat>, s: State) {
    s.cursor == |order| && s.queue == [] && s.running.None?
  }

  /** Some event is due at the current clock: an arrival or the running job's completion. */
  ghost predicate Pending(jobs: seq<Job>, order: seq<nat>, s: State)
    requires Shaped(jobs, order, s)
  {
    || (s.cursor < |order| && jobs[order[s.cursor]].arrival <= s.clock)
    || (s.running.Some? && s.clock >= Completion(jobs, s.slots, s.running.value))
  }

  /** Work left: two units per job still to arrive, one per waiting job, one for a busy machine. */
  function Potential(order: seq<nat>, s: State): nat
    requires s.cursor <= |order|
  {
    2 * (|order| - s.cursor) + |s.queue| + (if s.running.Some? then 1 else 0)
  }

  /** The loop's termination measure: the work left, plus one while no event is due. */
  ghost function Measure(jobs: seq<Job>, order: seq<nat>, s: State): nat
    requires Shaped(jobs, order, s)
  {
    Potential(order, s) + (if Pending(jobs, order, s) then 0 else 1)
  }

  // ---- Accounting helpers ----

  lemma {:induction false} SumDelaysBlank(slots: seq<Option<Slot>>)
    requires forall j :: 0 <= j < |slots| ==> slots[j].None?
    ensures SumDelays(slots) == 0.0
  {
    if |slots| > 0 {
      SumDelaysBlank(slots[..|slots| - 1]);
    }
  }

  /** Writing a slot that was empty adds exactly its delay to the sum. */
  lemma {:induction false} SumDelaysWrite(slots: seq<Option<Slot>>, j: nat, v: Slot)
    requires j < |slots| && slots[j].None?
    ensures SumDelays(slots[j := Some(v)]) == SumDelays(slots) + v.delay
  {
    var n := |slots|;
    var w := slots[j := Some(v)];
    if j < n - 1 {
      assert w[..n - 1] == slots[..n - 1][j := Some(v)];
      SumDelaysWrite(slots[..n - 1], j, v);
    } else {
      assert w[..n - 1] == slots[..n - 1];
    }
  }

  /** No position occurs twice among the admitted jobs. */
  lemma AdmittedDistinct(jobs: seq<Job>, order: seq<nat>, c: nat)
    requires Context(jobs, order) && c <= |order|
    ensures forall x: nat :: multiset(order[..c])[x] <= 1
  {
    PermutationDistinct(order, |jobs|);
    assert order == order[..c] + order[c..];
    forall x: nat
      ensures multiset(order[..c])[x] <= 1
    {
      assert multiset(order)[x] == multiset(order[..c])[x] + multiset(order[c..])[x];
    }
  }

  // ---- The initial state ----

  lemma InitialHead(jobs: seq<Job>, order: seq<nat>)
    requires Context(jobs, order)
    ensures Head(jobs, order, Initial(|jobs|))
  {
    var s := Initial(|jobs|);
    PermutationBounds(order, |jobs|);
    SumDelaysBlank(s.slots);
    forall k | 0 <= k < |order|
      ensures s.clock <= jobs[order[k]].arrival
    {
      assert Valid(jobs[order[k]]);
    }
  }

  // ---- Admission ----

  lemma AdmitAdmitted(jobs: seq<Job>, order: seq<nat>, s: State)
    requires Shaped(jobs, order, s) && Admitted(order, s)
    ensures Admitted(order, Admit(jobs, order, s))
  {
    var a := Admit(jobs, order, s);
    var batch := order[s.cursor..a.cursor];
    EnqueueAllKeepsJobs(jobs, s.queue, batch);
    assert a.served == s.served;
    assert multiset(a.queue) == multiset(s.queue) + multiset(batch);
    SliceJoin(order, s.cursor, a.cursor);
  }

  /** The jobs up to a later cursor are those up to an earlier one and those in between. */
  lemma SliceJoin(order: seq<nat>, lo: nat, hi: nat)
    requires lo <= hi <= |order|
    ensures multiset(order[..hi]) == multiset(order[..lo]) + multiset(order[lo..hi])
  {
    assert order[..hi] == order[..lo] + order[lo..hi];
  }

  /** Waiting jobs that have arrived, joined by jobs that have arrived, have all arrived. */
  lemma ArrivedJoin(jobs: seq<Job>, queue: seq<nat>, batch: seq<nat>, joined: seq<nat>, clock: real)
    requires Arrived(jobs, queue, clock) && Arrived(jobs, batch, clock)
    requires multiset(joined) == multiset(queue) + multiset(batch)
    ensures Arrived(jobs, joined, clock)
  {
    forall x | x in joined
      ensures x < |jobs| && jobs[x].arrival <= clock
    {
      assert x in multiset(joined);
      assert x in queue || x in batch;
    }
  }

  /** A stretch of the arrival order whose jobs have all arrived. */
  lemma SliceArrived(jobs: seq<Job>, order: seq<nat>, lo: nat, hi: nat, clock: real)
    requires lo <= hi <= |order|
    requires forall k :: lo <= k < hi ==> order[k] < |jobs| && jobs[order[k]].arrival <= clock
    ensures Arrived(jobs, order[lo..hi], clock)
  {
    forall x | x in order[lo..hi]
      ensures x < |jobs| && jobs[x].arrival <= clock
    {
      var i :| 0 <= i < hi - lo && order[lo..hi][i] == x;
      assert order[lo + i] == x;
    }
  }

  lemma AdmitArrived(jobs: seq<Job>, order: seq<nat>, s: State)
    requires Shaped(jobs, order, s) && Arrived(jobs, s.queue, s.clock)
    ensures Arrived(jobs, Admit(jobs, order, s).queue, s.clock)
  {
    var a := Admit(jobs, order, s);
    var batch := order[s.cursor..a.cursor];
    SliceArrived(jobs, order, s.cursor, a.cursor, s.clock);
    EnqueueAllKeepsJobs(jobs, s.queue, batch);
    ArrivedJoin(jobs, s.queue, batch, a.queue, s.clock);
  }

  /** A job that has arrived by the clock, with every later arrival still to come, lies among
      the first c of the order. */
  lemma ArrivedIsAdmitted(jobs: seq<Job>, order: seq<nat>, c: nat, clock: real, w: nat)
    requires c <= |order| && (forall k :: 0 <= k < |order| ==> order[k] < |jobs|)
    requires forall k :: c <= k < |order| ==> clock < jobs[order[k]].arrival
    requires w in order && w < |jobs| && jobs[w].arrival <= clock
    ensures w in multiset(order[..c])
  {
    assert order == order[..c] + order[c..];
    assert multiset(order) == multiset(order[..c]) + multiset(order[c..]);
    assert forall i :: 0 <= i < |order| - c ==> order[c..][i] == order[c + i];
    assert w !in order[c..];
  }

  /** Every waiting job was admitted before every job still to be admitted. */
  lemma QueueAdmittedBefore(jobs: seq<Job>, order: seq<nat>, s: State, hi: nat)
    requires Context(jobs, order) && Shaped(jobs, order, s) && Admitted(order, s)
    requires s.cursor <= hi <= |order|
    ensures AdmittedBefore(jobs, s.queue, order[s.cursor..hi])
  {
    var batch := order[s.cursor..hi];
    forall i, k | 0 <= i < |s.queue| && 0 <= k < |batch|
      ensures Before(jobs, s.queue[i], batch[k])
    {
      var x := s.queue[i];
      assert x in multiset(order[..s.cursor]) by {
        assert x in multiset(s.queue);
      }
      var p :| 0 <= p < s.cursor && order[..s.cursor][p] == x;
      assert order[p] == x && batch[k] == order[s.cursor + k];
    }
  }

  lemma SliceSorted(jobs: seq<Job>, order: seq<nat>, lo: nat, hi: nat)
    requires lo <= hi <= |order| && Sorted(jobs, order)
    ensures Sorted(jobs, order[lo..hi])
  {
    forall p, q | 0 <= p < q < hi - lo
      ensures Before(jobs, order[lo..hi][p], order[lo..hi][q])
    {
      assert order[lo..hi][p] == order[lo + p] && order[lo..hi][q] == order[lo + q];
    }
  }

  lemma AdmitDisciplined(jobs: seq<Job>, order: seq<nat>, s: State)
    requires Context(jobs, order) && Shaped(jobs, order, s) && Admitted(order, s)
    requires Disciplined(jobs, s.queue)
    ensures Disciplined(jobs, Admit(jobs, order, s).queue)
  {
    var a := Admit(jobs, order, s);
    QueueAdmittedBefore(jobs, order, s, a.cursor);
    SliceSorted(jobs, order, s.cursor, a.cursor);
    EnqueueAllDisciplined(jobs, s.queue, order[s.cursor..a.cursor]);
  }

  /** After admission no arrival beyond the cursor is due. */
  lemma AdmitUnreached(jobs: seq<Job>, order: seq<nat>, s: State)
    requires Context(jobs, order) && Shaped(jobs, order, s)
    ensures Unreached(jobs, order, Admit(jobs, order, s))
  {
    var a := Admit(jobs, order, s);
    forall k | a.cursor <= k < |order|
      ensures a.clock < jobs[order[k]].arrival
    {
      if k > a.cursor {
        assert Before(jobs, order[a.cursor], order[k]);
      }
    }
  }

  /** Admission touches only the cursor and the queue, so the dispatch history is unaffected. */
  lemma AdmitCore(jobs: seq<Job>, order: seq<nat>, s: State)
    requires Context(jobs, order) && Core(jobs, order, s)
    ensures Core(jobs, order, Admit(jobs, order, s))
  {
    var a := Admit(jobs, order, s);
    AdmitAdmitted(jobs, order, s);
    AdmitArrived(jobs, order, s);
    AdmitDisciplined(jobs, order, s);
    assert a.served == s.served && a.slots == s.slots && a.running == s.running && a.clock == s.clock;
    assert Tracking(jobs, a);
  }

  /** A job of the order that is not among the first c lies after them. */
  lemma NotAdmittedYet(order: seq<nat>, c: nat, x: nat)
    requires c <= |order| && x in order && x !in multiset(order[..c])
    ensures x in order[c..]
  {
    assert order == order[..c] + order[c..];
    assert multiset(order) == multiset(order[..c]) + multiset(order[c..]);
    assert x in multiset(order[c..]);
  }

  /** At the head of the loop, an idle machine means no job still to be dispatched has arrived
      before now. */
  lemma IdleHeadNoneWaiting(jobs: seq<Job>, order: seq<nat>, s: State)
    requires Context(jobs, order) && Shaped(jobs, order, s) && Admitted(order, s) && s.queue == []
    requires forall k :: s.cursor <= k < |order| ==> s.clock <= jobs[order[k]].arrival
    ensures NoneWaiting(jobs, s.served, s.clock)
  {
    PermutationComplete(order, |jobs|);
    forall j | 0 <= j < |jobs| && j !in s.served
      ensures s.clock <= jobs[j].arrival
    {
      var j': nat := j;
      assert j' in order;
      assert j' !in multiset(order[..s.cursor]) by {
        assert j' !in multiset(s.served);
      }
      NotAdmittedYet(order, s.cursor, j');
      var i :| 0 <= i < |order| - s.cursor && order[s.cursor..][i] == j';
      assert order[s.cursor + i] == j';
    }
  }

  // ---- Completion check ----

  lemma ReleaseCore(jobs: seq<Job>, order: seq<nat>, s: State)
    requires Core(jobs, order, s)
    ensures Core(jobs, order, Release(jobs, order, s))
  {
    if s.running.Some? && s.clock >= Completion(jobs, s.slots, s.running.value) {
      FreedKeeps(jobs, order, s);
      assert Release(jobs, order, s) == s.(running := None);
    }
  }

  /** Freeing a machine whose job is done touches nothing but the running job. */
  lemma FreedKeeps(jobs: seq<Job>, order: seq<nat>, s: State)
    requires Shaped(jobs, order, s) && Admitted(order, s) && Totals(s) && Tracking(jobs, s)
    requires s.running.Some? && s.clock >= Completion(jobs, s.slots, s.running.value)
    ensures var r := s.(running := None);
      && r.served == s.served && r.slots == s.slots && r.queue == s.queue && r.clock == s.clock
      && Shaped(jobs, order, r) && Admitted(order, r) && Totals(r) && Tracking(jobs, r)
  {
  }

  // ---- Dispatch ----

  /** The job at the front of the queue has not been dispatched before. */
  lemma FrontNotServed(jobs: seq<Job>, order: seq<nat>, s: State)
    requires Context(jobs, order) && Shaped(jobs, order, s) && Admitted(order, s) && Written(s.slots, s.served)
    requires |s.queue| > 0
    ensures s.queue[0] in s.queue && s.queue[0] !in s.served
    ensures s.slots[s.queue[0]].None?
  {
    var j := s.queue[0];
    AdmittedDistinct(jobs, order, s.cursor);
    assert j in s.queue;
    assert multiset(order[..s.cursor])[j] == multiset(s.queue)[j] + multiset(s.served)[j];
  }

  lemma DispatchAdmitted(jobs: seq<Job>, order: seq<nat>, s: State)
    requires Shaped(jobs, order, s) && Admitted(order, s)
    ensures Admitted(order, Dispatch(jobs, order, s))
  {
    if s.running.None? && |s.queue| > 0 {
      var d := Dispatch(jobs, order, s);
      assert s.queue == [s.queue[0]] + d.queue;
      assert d.served == s.served + [s.queue[0]];
    }
  }

  lemma DispatchTotals(jobs: seq<Job>, order: seq<nat>, s: State)
    requires Context(jobs, order) && Shaped(jobs, order, s) && Admitted(order, s) && Written(s.slots, s.served)
    requires Totals(s)
    ensures Totals(Dispatch(jobs, order, s))
    ensures Written(Dispatch(jobs, order, s).slots, Dispatch(jobs, order, s).served)
  {
    if s.running.None? && |s.queue| > 0 {
      var d := Dispatch(jobs, order, s);
      var j := s.queue[0];
      FrontNotServed(jobs, order, s);
      SumDelaysWrite(s.slots, j, d.slots[j].value);
    }
  }

  lemma DispatchStamped(jobs: seq<Job>, order: seq<nat>, s: State)
    requires Shaped(jobs, order, s) && Stamped(jobs, s.slots, s.clock) && Arrived(jobs, s.queue, s.clock)
    ensures Stamped(jobs, Dispatch(jobs, order, s).slots, s.clock)
    ensures Arrived(jobs, Dispatch(jobs, order, s).queue, s.clock)
  {
    if s.running.None? && |s.queue| > 0 {
      assert s.queue[0] in s.queue;
      assert forall x :: x in s.queue[1..] ==> x in s.queue;
    }
  }

  lemma DispatchDisciplined(jobs: seq<Job>, order: seq<nat>, s: State)
    requires Shaped(jobs, order, s) && Disciplined(jobs, s.queue)
    ensures Disciplined(jobs, Dispatch(jobs, order, s).queue)
  {
    if s.running.None? && |s.queue| > 0 {
      var q := s.queue[1..];
      forall p, r | 0 <= p < r < |q|
        ensures Outranks(jobs, q[p], q[r])
      {
        assert q[p] == s.queue[p + 1] && q[r] == s.queue[r + 1];
      }
    }
  }

  /** The job taken from the front outranks every other job that has arrived and waits. */
  lemma DispatchPrioritized(jobs: seq<Job>, order: seq<nat>, s: State)
    requires Context(jobs, order) && Shaped(jobs, order, s) && Admitted(order, s) && Written(s.slots, s.served)
    requires Disciplined(jobs, s.queue) && Prioritized(jobs, s.slots, s.served) && Unreached(jobs, order, s)
    requires s.running.None? && |s.queue| > 0
    ensures Prioritized(jobs, Dispatch(jobs, order, s).slots, Dispatch(jobs, order, s).served)
  {
    var d := Dispatch(jobs, order, s);
    var j := s.queue[0];
    var m := |s.served|;
    DispatchKeepsHistory(jobs, order, s);
    PermutationComplete(order, |jobs|);
    forall t, w | 0 <= t < |d.served| && 0 <= w < |jobs| && w !in d.served[..t + 1] &&
        jobs[w].arrival <= StartOf(d.slots, d.served[t])
      ensures Outranks(jobs, d.served[t], w)
    {
      if t < m {
        assert d.served[..t + 1] == s.served[..t + 1];
      } else {
        assert d.served[..t + 1] == s.served + [j];
        var w': nat := w;
        assert w' in order;
        ArrivedIsAdmitted(jobs, order, s.cursor, s.clock, w');
        assert w' in multiset(s.queue) by {
          assert w' !in multiset(s.served);
        }
        var i :| 0 <= i < |s.queue| && s.queue[i] == w';
        assert i > 0;
      }
    }
  }

  lemma DispatchTracking(jobs: seq<Job>, order: seq<nat>, s: State)
    requires Shaped(jobs, order, s) && Tracking(jobs, s)
    ensures Tracking(jobs, Dispatch(jobs, order, s))
  {
  }

  /** Old dispatches keep their slots when the front job, never dispatched before, is started. */
  lemma DispatchKeepsHistory(jobs: seq<Job>, order: seq<nat>, s: State)
    requires Context(jobs, order) && Shaped(jobs, order, s) && Admitted(order, s) && Written(s.slots, s.served)
    requires s.running.None? && |s.queue| > 0
    ensures forall t :: 0 <= t < |s.served| ==>
      Dispatch(jobs, order, s).served[t] == s.served[t] &&
      Dispatch(jobs, order, s).slots[s.served[t]] == s.slots[s.served[t]]
  {
    FrontNotServed(jobs, order, s);
  }

  /** Whether the machine was just freed or stood idle, the dispatched job starts at the later
      of its arrival and its predecessor's completion. */
  lemma DispatchChained(jobs: seq<Job>, order: seq<nat>, s: State)
    requires Context(jobs, order) && Shaped(jobs, order, s) && Admitted(order, s) && Written(s.slots, s.served)
    requires Arrived(jobs, s.queue, s.clock) && Tracking(jobs, s) && Chained(jobs, s.slots, s.served)
    requires s.running.None? && |s.queue| > 0 && Ready(jobs, s)
    ensures Chained(jobs, Dispatch(jobs, order, s).slots, Dispatch(jobs, order, s).served)
  {
    var d := Dispatch(jobs, order, s);
    var j := s.queue[0];
    var m := |s.served|;
    FrontNotServed(jobs, order, s);
    DispatchKeepsHistory(jobs, order, s);
    assert j in s.queue;
    if m > 0 {
      assert Completion(jobs, d.slots, d.served[m - 1]) == Completion(jobs, s.slots, s.served[m - 1]);
    }
  }

  /** Extending a history that keeps every earlier entry and its slot keeps those entries prompt. */
  lemma PromptPrefix(jobs: seq<Job>, slots: seq<Option<Slot>>, served: seq<nat>,
                     slots': seq<Option<Slot>>, served': seq<nat>)
    requires Logged(jobs, slots, served) && Logged(jobs, slots', served') && |served| <= |served'|
    requires forall t :: 0 <= t < |served| ==>
      served'[t] == served[t] && slots'[served[t]] == slots[served[t]]
    requires Prompt(jobs, slots, served)
    ensures forall t :: 0 <= t < |served| && IdleBefore(jobs, slots', served', t) ==>
      NoneWaiting(jobs, served'[..t], StartOf(slots', served'[t]))
  {
    forall t | 0 <= t < |served| && IdleBefore(jobs, slots', served', t)
      ensures NoneWaiting(jobs, served'[..t], StartOf(slots', served'[t]))
    {
      assert served'[..t] == served[..t];
      if t > 0 {
        assert Completion(jobs, slots', served'[t - 1]) == Completion(jobs, slots, served[t - 1]);
      }
      assert IdleBefore(jobs, slots, served, t);
    }
  }

  /** A dispatch onto a machine that stood idle happens only when nobody else was waiting. */
  lemma DispatchPromptLast(jobs: seq<Job>, order: seq<nat>, s: State)
    requires Context(jobs, order) && Shaped(jobs, order, s) && Admitted(order, s) && Written(s.slots, s.served)
    requires s.running.None? && |s.queue| > 0 && Ready(jobs, s)
    ensures var d := Dispatch(jobs, order, s);
      IdleBefore(jobs, d.slots, d.served, |s.served|) ==>
        NoneWaiting(jobs, d.served[..|s.served|], StartOf(d.slots, d.served[|s.served|]))
  {
    var d := Dispatch(jobs, order, s);
    var m := |s.served|;
    DispatchKeepsHistory(jobs, order, s);
    assert d.served[..m] == s.served;
    assert StartOf(d.slots, d.served[m]) == s.clock;
    if m > 0 {
      assert Completion(jobs, d.slots, d.served[m - 1]) == Completion(jobs, s.slots, s.served[m - 1]);
    }
  }

  lemma DispatchPrompt(jobs: seq<Job>, order: seq<nat>, s: State)
    requires Context(jobs, order) && Shaped(jobs, order, s) && Admitted(order, s) && Written(s.slots, s.served)
    requires Tracking(jobs, s) && Prompt(jobs, s.slots, s.served)
    requires s.running.None? && |s.queue| > 0 && Ready(jobs, s)
    ensures Prompt(jobs, Dispatch(jobs, order, s).slots, Dispatch(jobs, order, s).served)
  {
    var d := Dispatch(jobs, order, s);
    DispatchKeepsHistory(jobs, order, s);
    PromptPrefix(jobs, s.slots, s.served, d.slots, d.served);
    DispatchPromptLast(jobs, order, s);
    assert |d.served| == |s.served| + 1;
  }

  lemma DispatchCore(jobs: seq<Job>, order: seq<nat>, s: State)
    requires Context(jobs, order) && Core(jobs, order, s) && Unreached(jobs, order, s)
    requires s.running.None? && |s.queue| > 0 ==> Ready(jobs, s)
    ensures Core(jobs, order, Dispatch(jobs, order, s))
  {
    DispatchAdmitted(jobs, order, s);
    DispatchTotals(jobs, order, s);
    DispatchStamped(jobs, order, s);
    DispatchTracking(jobs, order, s);
    DispatchDisciplined(jobs, order, s);
    if s.running.None? && |s.queue| > 0 {
      DispatchChained(jobs, order, s);
      DispatchPrompt(jobs, order, s);
      DispatchPrioritized(jobs, order, s);
    }
  }

  // ---- Moving the clock ----

  /** Moving the clock forward keeps every invariant, since each only bounds the past. */
  lemma AdvanceCore(jobs: seq<Job>, order: seq<nat>, s: State, c: real)
    requires Core(jobs, order, s) && s.clock <= c
    ensures Core(jobs, order, s.(clock := c))
  {
    var n := s.(clock := c);
    assert Tracking(jobs, n);
  }
}
