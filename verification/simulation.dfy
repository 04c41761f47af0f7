/** One day's simulation as a whole: what its report says about the schedule it describes. */
module Simulation {
  import opened Wrappers
  import opened Jobs
  import opened ArrivalOrder
  import opened Discipline
  import opened Machine
  import opened Invariants
  import opened Loop

  /** The outcome of simulating one day: the slot written on each job (by position), the order in
      which the jobs went onto the machine, and the day's average delay. */
  datatype DayReport = DayReport(slots: seq<Slot>, dispatch: seq<nat>, average: real)

  /** The report covers the day: one slot per job and a dispatch order naming each job once. */
  ghost predicate Covers(jobs: seq<Job>, r: DayReport) {
    && |r.slots| == |jobs|
    && |r.dispatch| == |jobs|
    && IsPermutation(r.dispatch, |jobs|)
    && (forall t :: 0 <= t < |r.dispatch| ==> r.dispatch[t] < |jobs|)
  }

  /** The minute job j leaves the machine according to the report. */
  function Finish(jobs: seq<Job>, r: DayReport, j: nat): real
    requires j < |jobs| && j < |r.slots|
  {
    r.slots[j].start + jobs[j].duration
  }

  /** Every job starts no earlier than it arrives, and its delay is exactly its wait. */
  ghost predicate Waits(jobs: seq<Job>, r: DayReport)
    requires Covers(jobs, r)
  {
    forall j :: 0 <= j < |jobs| ==> Consistent(jobs[j], r.slots[j])
  }

  /** One job at a time, without preemption: each job after the first starts at the later of its
      arrival and its predecessor's finish. */
  ghost predicate Sequenced(jobs: seq<Job>, r: DayReport)
    requires Covers(jobs, r)
  {
    forall t :: 0 < t < |r.dispatch| ==>
      r.slots[r.dispatch[t]].start ==
        Later(jobs[r.dispatch[t]].arrival, Finish(jobs, r, r.dispatch[t - 1]))
  }

  /** The machine only idles while nobody waits: a job that starts later than its predecessor's
      finish (or the first job) starts at a minute no remaining job arrived before. */
  ghost predicate NoIdling(jobs: seq<Job>, r: DayReport)
    requires Covers(jobs, r)
  {
    forall t ::
      (0 <= t < |r.dispatch| &&
       (t == 0 || Finish(jobs, r, r.dispatch[t - 1]) < r.slots[r.dispatch[t]].start)) ==>
      NoneWaiting(jobs, r.dispatch[..t], r.slots[r.dispatch[t]].start)
  }

  /** Each job that goes onto the machine outranks every job that has arrived by then and still
      waits: short before long, the latest short first, the earliest long first. */
  ghost predicate ByRank(jobs: seq<Job>, r: DayReport)
    requires Covers(jobs, r)
  {
    forall t, w ::
      (0 <= t < |r.dispatch| && 0 <= w < |jobs| && w !in r.dispatch[..t + 1] &&
       jobs[w].arrival <= r.slots[r.dispatch[t]].start) ==> Outranks(jobs, r.dispatch[t], w)
  }

  /** The report describes a schedule that follows the shop's rules. */
  ghost predicate Schedules(jobs: seq<Job>, r: DayReport) {
    && Covers(jobs, r)
    && Waits(jobs, r)
    && Sequenced(jobs, r)
    && NoIdling(jobs, r)
    && ByRank(jobs, r)
  }

  // ---- From the loop's final state to the report ----

  function Unwrap(slots: seq<Option<Slot>>): (r: seq<Slot>)
    requires forall j :: 0 <= j < |slots| ==> slots[j].Some?
    ensures |r| == |slots| && forall j :: 0 <= j < |slots| ==> r[j] == slots[j].value
  {
    seq(|slots|, j requires 0 <= j < |slots| => slots[j].value)
  }

  lemma {:induction false} SumDelaysUnwrap(slots: seq<Option<Slot>>)
    requires forall j :: 0 <= j < |slots| ==> slots[j].Some?
    ensures SumDelays(slots) == TotalDelay(Unwrap(slots))
  {
    if |slots| > 0 {
      var n := |slots|;
      SumDelaysUnwrap(slots[..n - 1]);
      assert Unwrap(slots)[..n - 1] == Unwrap(slots[..n - 1]);
    }
  }

  /** When the loop ends every job has been dispatched exactly once and has its slot. */
  lemma FinalFacts(jobs: seq<Job>, order: seq<nat>, f: State)
    requires Context(jobs, order) && Core(jobs, order, f) && !Active(order, f)
    ensures IsPermutation(f.served, |jobs|)
    ensures forall j :: 0 <= j < |f.slots| ==> f.slots[j].Some?
  {
    assert order[..f.cursor] == order;
    PermutationComplete(f.served, |jobs|);
    forall j | 0 <= j < |f.slots|
      ensures f.slots[j].Some?
    {
      var j': nat := j;
      assert j' in f.served;
    }
  }

  /** Builds the report from the loop's final state. The average is the running total over the
      running count, or zero when nothing was dispatched. */
  function Report(jobs: seq<Job>, order: seq<nat>, f: State): (r: DayReport)
    requires Context(jobs, order) && Core(jobs, order, f) && !Active(order, f)
    ensures Schedules(jobs, r)
    ensures r.average == Average(r.slots)
  {
    FinalFacts(jobs, order, f);
    var r := DayReport(Unwrap(f.slots), f.served,
                       if f.count > 0 then f.total / (f.count as real) else 0.0);
    ReportFacts(jobs, order, f, r);
    r
  }

  lemma ReportFacts(jobs: seq<Job>, order: seq<nat>, f: State, r: DayReport)
    requires Context(jobs, order) && Core(jobs, order, f) && !Active(order, f)
    requires IsPermutation(f.served, |jobs|)
    requires forall j :: 0 <= j < |f.slots| ==> f.slots[j].Some?
    requires r == DayReport(Unwrap(f.slots), f.served, if f.count > 0 then f.total / (f.count as real) else 0.0)
    ensures Schedules(jobs, r)
    ensures r.average == Average(r.slots)
  {
    PermutationBounds(f.served, |jobs|);
    SumDelaysUnwrap(f.slots);
    assert Covers(jobs, r);
    ReportWaits(jobs, f, r);
    ReportSequenced(jobs, f, r);
    ReportNoIdling(jobs, f, r);
    ReportByRank(jobs, f, r);
  }

  lemma ReportWaits(jobs: seq<Job>, f: State, r: DayReport)
    requires Logged(jobs, f.slots, f.served) && Stamped(jobs, f.slots, f.clock)
    requires Covers(jobs, r) && r.dispatch == f.served
    requires forall j :: 0 <= j < |f.slots| ==> f.slots[j].Some? && r.slots[j] == f.slots[j].value
    ensures Waits(jobs, r)
  {
  }

  lemma ReportSequenced(jobs: seq<Job>, f: State, r: DayReport)
    requires Logged(jobs, f.slots, f.served) && Chained(jobs, f.slots, f.served)
    requires Covers(jobs, r) && r.dispatch == f.served
    requires forall j :: 0 <= j < |f.slots| ==> f.slots[j].Some? && r.slots[j] == f.slots[j].value
    ensures Sequenced(jobs, r)
  {
  }

  lemma ReportNoIdling(jobs: seq<Job>, f: State, r: DayReport)
    requires Logged(jobs, f.slots, f.served) && Prompt(jobs, f.slots, f.served)
    requires Covers(jobs, r) && r.dispatch == f.served
    requires forall j :: 0 <= j < |f.slots| ==> f.slots[j].Some? && r.slots[j] == f.slots[j].value
    ensures NoIdling(jobs, r)
  {
    forall t | 0 <= t < |r.dispatch| &&
        (t == 0 || Finish(jobs, r, r.dispatch[t - 1]) < r.slots[r.dispatch[t]].start)
      ensures NoneWaiting(jobs, r.dispatch[..t], r.slots[r.dispatch[t]].start)
    {
      assert IdleBefore(jobs, f.slots, f.served, t);
    }
  }

  lemma ReportByRank(jobs: seq<Job>, f: State, r: DayReport)
    requires Logged(jobs, f.slots, f.served) && Prioritized(jobs, f.slots, f.served)
    requires Covers(jobs, r) && r.dispatch == f.served
    requires forall j :: 0 <= j < |f.slots| ==> f.slots[j].Some? && r.slots[j] == f.slots[j].value
    ensures ByRank(jobs, r)
  {
  }

  // ---- The day's simulation ----

  /** Simulates one day: orders the jobs by arrival, runs the event loop from the opening
      minute, and reports every job's start and delay and the day's average delay. */
  function Simulate(jobs: seq<Job>): (r: DayReport)
    requires AllValid(jobs)
    ensures Schedules(jobs, r)
    ensures r.average == Average(r.slots)
  {
    var order := Order(jobs);
    InitialHead(jobs, order);
    Report(jobs, order, Run(jobs, order, Initial(|jobs|)))
  }

  // ---- What the rules imply ----

  /** Single machine, no preemption: every job finishes before any later-dispatched job starts. */
  lemma NoOverlap(jobs: seq<Job>, r: DayReport)
    requires AllValid(jobs) && Schedules(jobs, r)
    ensures forall t, u :: 0 <= t < u < |r.dispatch| ==>
      Finish(jobs, r, r.dispatch[t]) <= r.slots[r.dispatch[u]].start
  {
    forall t, u | 0 <= t < u < |r.dispatch|
      ensures Finish(jobs, r, r.dispatch[t]) <= r.slots[r.dispatch[u]].start
    {
      FinishBeforeStart(jobs, r, t, u);
    }
  }

  lemma {:induction false} FinishBeforeStart(jobs: seq<Job>, r: DayReport, t: nat, u: nat)
    requires AllValid(jobs) && Covers(jobs, r) && Sequenced(jobs, r) && t < u < |r.dispatch|
    ensures Finish(jobs, r, r.dispatch[t]) <= r.slots[r.dispatch[u]].start
    decreases u - t
  {
    if t < u - 1 {
      FinishBeforeStart(jobs, r, t, u - 1);
      assert Valid(jobs[r.dispatch[u - 1]]);
    }
  }

  /** A job of a dispatch order that names every job once does not occur before its own turn. */
  lemma FreshAt(d: seq<nat>, n: nat, t: nat)
    requires IsPermutation(d, n) && t < |d|
    ensures d[t] !in d[..t]
  {
    PermutationDistinct(d, n);
    assert d[..t + 1] == d[..t] + [d[t]];
    assert d == d[..t + 1] + d[t + 1..];
    assert multiset(d)[d[t]] >= multiset(d[..t + 1])[d[t]];
  }

  /** Two schedules that agree on their first k dispatches, slots included. */
  ghost predicate AgreeUpTo(jobs: seq<Job>, r1: DayReport, r2: DayReport, k: nat)
    requires Covers(jobs, r1) && Covers(jobs, r2) && k <= |jobs|
  {
    && r1.dispatch[..k] == r2.dispatch[..k]
    && forall i :: 0 <= i < k ==> r1.slots[r1.dispatch[i]] == r2.slots[r1.dispatch[i]]
  }

  /** With the same history, the k-th job of one schedule starts no earlier than the k-th job of
      the other: it starts at its predecessor's finish or, on an idle machine, when nobody
      remaining had yet arrived. */
  lemma StartNotBelow(jobs: seq<Job>, r1: DayReport, r2: DayReport, k: nat)
    requires Covers(jobs, r1) && Covers(jobs, r2) && k < |jobs|
    requires Waits(jobs, r1) && Sequenced(jobs, r1) && NoIdling(jobs, r2)
    requires AgreeUpTo(jobs, r1, r2, k)
    ensures r1.slots[r1.dispatch[k]].start >= r2.slots[r2.dispatch[k]].start
  {
    PermutationBounds(r1.dispatch, |jobs|);
    PermutationBounds(r2.dispatch, |jobs|);
    var s2 := r2.slots[r2.dispatch[k]].start;
    if k > 0 {
      assert r1.dispatch[k - 1] == r1.dispatch[..k][k - 1] == r2.dispatch[k - 1];
      assert Finish(jobs, r1, r1.dispatch[k - 1]) == Finish(jobs, r2, r2.dispatch[k - 1]);
    }
    if k == 0 || Finish(jobs, r2, r2.dispatch[k - 1]) < s2 {
      FreshAt(r1.dispatch, |jobs|, k);
      assert NoneWaiting(jobs, r2.dispatch[..k], s2);
      assert Consistent(jobs[r1.dispatch[k]], r1.slots[r1.dispatch[k]]);
    }
  }

  /** With the same history and the same start, the k-th job of one schedule outranks the k-th
      job of the other unless they are the same job. */
  lemma TakesTopRanked(jobs: seq<Job>, r1: DayReport, r2: DayReport, k: nat)
    requires Covers(jobs, r1) && Covers(jobs, r2) && ByRank(jobs, r1) && Waits(jobs, r2) && k < |jobs|
    requires r1.dispatch[..k] == r2.dispatch[..k]
    requires r1.slots[r1.dispatch[k]].start == r2.slots[r2.dispatch[k]].start
    ensures r1.dispatch[k] != r2.dispatch[k] ==> Outranks(jobs, r1.dispatch[k], r2.dispatch[k])
  {
    var c1 := r1.dispatch[k];
    var c2 := r2.dispatch[k];
    if c1 != c2 {
      FreshAt(r2.dispatch, |jobs|, k);
      NotInLonger(r1.dispatch, k, c2);
      assert Consistent(jobs[c2], r2.slots[c2]);
    }
  }

  /** A job missing from the first k dispatches and not dispatched k-th is missing from the
      first k + 1. */
  lemma NotInLonger(d: seq<nat>, k: nat, x: nat)
    requires k < |d| && x !in d[..k] && x != d[k]
    ensures x !in d[..k + 1]
  {
    assert d[..k + 1] == d[..k] + [d[k]];
  }

  /** A slot that agrees with its job is fixed by its start. */
  lemma SameSlot(jobs: seq<Job>, r1: DayReport, r2: DayReport, c: nat)
    requires Schedules(jobs, r1) && Schedules(jobs, r2) && c < |jobs|
    requires r1.slots[c].start == r2.slots[c].start
    ensures r1.slots[c] == r2.slots[c]
  {
    assert Consistent(jobs[c], r1.slots[c]) && Consistent(jobs[c], r2.slots[c]);
  }

  /** With the same history, both schedules take the same next job at the same minute. */
  lemma AgreeStep(jobs: seq<Job>, r1: DayReport, r2: DayReport, k: nat)
    requires Schedules(jobs, r1) && Schedules(jobs, r2) && k < |jobs|
    requires AgreeUpTo(jobs, r1, r2, k)
    ensures AgreeUpTo(jobs, r1, r2, k + 1)
  {
    AgreeSymmetric(jobs, r1, r2, k);
    StartNotBelow(jobs, r1, r2, k);
    StartNotBelow(jobs, r2, r1, k);
    TakesTopRanked(jobs, r1, r2, k);
    TakesTopRanked(jobs, r2, r1, k);
    OutranksOrders(jobs, r1.dispatch[k], r2.dispatch[k], r1.dispatch[k]);
    SameSlot(jobs, r1, r2, r1.dispatch[k]);
    ExtendAgree(jobs, r1, r2, k);
  }

  lemma AgreeSymmetric(jobs: seq<Job>, r1: DayReport, r2: DayReport, k: nat)
    requires Covers(jobs, r1) && Covers(jobs, r2) && k <= |jobs|
    requires AgreeUpTo(jobs, r1, r2, k)
    ensures AgreeUpTo(jobs, r2, r1, k)
  {
    forall i | 0 <= i < k
      ensures r2.slots[r2.dispatch[i]] == r1.slots[r2.dispatch[i]]
    {
      assert r1.dispatch[i] == r1.dispatch[..k][i] == r2.dispatch[i];
    }
  }

  lemma ExtendAgree(jobs: seq<Job>, r1: DayReport, r2: DayReport, k: nat)
    requires Covers(jobs, r1) && Covers(jobs, r2) && k < |jobs|
    requires AgreeUpTo(jobs, r1, r2, k)
    requires r1.dispatch[k] == r2.dispatch[k] && r1.slots[r1.dispatch[k]] == r2.slots[r1.dispatch[k]]
    ensures AgreeUpTo(jobs, r1, r2, k + 1)
  {
    assert r1.dispatch[..k + 1] == r1.dispatch[..k] + [r1.dispatch[k]];
    assert r2.dispatch[..k + 1] == r2.dispatch[..k] + [r2.dispatch[k]];
  }

  lemma {:induction false} AgreeAll(jobs: seq<Job>, r1: DayReport, r2: DayReport, k: nat)
    requires Schedules(jobs, r1) && Schedules(jobs, r2) && k <= |jobs|
    ensures AgreeUpTo(jobs, r1, r2, k)
  {
    if k > 0 {
      AgreeAll(jobs, r1, r2, k - 1);
      AgreeStep(jobs, r1, r2, k - 1);
    }
  }

  /** The shop's rules leave no freedom: two reports that both follow them name the same
      dispatch order and the same start and delay for every job. */
  lemma SchedulesUnique(jobs: seq<Job>, r1: DayReport, r2: DayReport)
    requires Schedules(jobs, r1) && Schedules(jobs, r2)
    ensures r1.dispatch == r2.dispatch && r1.slots == r2.slots
  {
    var n := |jobs|;
    AgreeAll(jobs, r1, r2, n);
    PermutationBounds(r1.dispatch, n);
    PermutationBounds(r2.dispatch, n);
    assert r1.dispatch == r1.dispatch[..n] && r2.dispatch == r2.dispatch[..n];
    PermutationComplete(r1.dispatch, n);
    forall j | 0 <= j < n
      ensures r1.slots[j] == r2.slots[j]
    {
      var j': nat := j;
      assert j' in r1.dispatch;
    }
  }

  /** The simulation computes exactly the schedule the rules describe: any report following
      them, with the average taken over the day, is the one the simulation produces. */
  lemma SimulateIsTheSchedule(jobs: seq<Job>, r: DayReport)
    requires AllValid(jobs) && Schedules(jobs, r) && r.average == Average(r.slots)
    ensures Simulate(jobs) == r
  {
    SchedulesUnique(jobs, Simulate(jobs), r);
  }

  // ---- The loop run pass by pass ----

  /** Runs one day's event loop pass by pass and counts the passes. The result is the day's
      simulation, and the loop makes at most two passes per job plus one. */
  method ComputeDay(jobs: seq<Job>) returns (r: DayReport, passes: nat)
    requires AllValid(jobs)
    ensures r == Simulate(jobs)
    ensures passes <= 2 * |jobs| + 1
  {
    var order := Order(jobs);
    InitialHead(jobs, order);
    var f;
    f, passes := RunDay(jobs, order);
    r := Report(jobs, order, f);
  }

  /** The event loop itself: it ends in the state the recursive run describes, after at most two
      passes per job plus one. */
  method RunDay(jobs: seq<Job>, order: seq<nat>) returns (f: State, passes: nat)
    requires Context(jobs, order) && Head(jobs, order, Initial(|jobs|))
    ensures f == Run(jobs, order, Initial(|jobs|))
    ensures passes <= 2 * |jobs| + 1
  {
    var s := Initial(|jobs|);
    passes := 0;
    while Active(order, s)
      invariant Head(jobs, order, s)
      invariant Run(jobs, order, s) == Run(jobs, order, Initial(|jobs|))
      invariant passes + Measure(jobs, order, s) <= 2 * |jobs| + 1
      decreases Measure(jobs, order, s)
    {
      var t := Settle(jobs, order, s);
      passes := passes + 1;
      var next := NextEvent(jobs, order, t);
      if next.None? {
        StepEnds(jobs, order, s);
        s := t;
        break;
      }
      StepAdvances(jobs, order, s, next.value);
      s := t.(clock := next.value);
    }
    f := s;
  }

  // ---- Worked days ----

  /** A long job at minute 0 and a short one at minute 2: the short one waits until minute 10,
      so the day's average delay is 4 minutes. */
  lemma TwoJobDay(jobs: seq<Job>)
    requires |jobs| == 2 && jobs[0] == Job(0.0, 10.0) && jobs[1] == Job(2.0, 3.0)
    ensures Simulate(jobs).slots == [Slot(0.0, 0.0), Slot(10.0, 8.0)]
    ensures Simulate(jobs).average == 4.0
  {
    var r := DayReport([Slot(0.0, 0.0), Slot(10.0, 8.0)], [0, 1], 4.0);
    TwoJobValid(jobs);
    TwoJobRules(jobs, r);
    TwoJobAverage(r);
    SimulateIsTheSchedule(jobs, r);
  }

  lemma TwoJobValid(jobs: seq<Job>)
    requires |jobs| == 2 && jobs[0] == Job(0.0, 10.0) && jobs[1] == Job(2.0, 3.0)
    ensures AllValid(jobs)
  {
    forall k | 0 <= k < |jobs|
      ensures Valid(jobs[k])
    {
      assert k == 0 || k == 1;
    }
  }

  lemma TwoJobCovers(jobs: seq<Job>, r: DayReport)
    requires |jobs| == 2 && jobs[0] == Job(0.0, 10.0) && jobs[1] == Job(2.0, 3.0)
    requires r == DayReport([Slot(0.0, 0.0), Slot(10.0, 8.0)], [0, 1], 4.0)
    ensures Covers(jobs, r)
  {
      assert Indices(2) == [0, 1];
  }

  lemma TwoJobSequenced(jobs: seq<Job>, r: DayReport)
    requires |jobs| == 2 && jobs[0] == Job(0.0, 10.0) && jobs[1] == Job(2.0, 3.0)
    requires r == DayReport([Slot(0.0, 0.0), Slot(10.0, 8.0)], [0, 1], 4.0)
    requires Covers(jobs, r)
    ensures Waits(jobs, r) && Sequenced(jobs, r)
  {
  }

  lemma TwoJobNoIdling(jobs: seq<Job>, r: DayReport)
    requires |jobs| == 2 && jobs[0] == Job(0.0, 10.0) && jobs[1] == Job(2.0, 3.0)
    requires r == DayReport([Slot(0.0, 0.0), Slot(10.0, 8.0)], [0, 1], 4.0)
    requires Covers(jobs, r)
    ensures NoIdling(jobs, r)
  {
    assert r.dispatch[..0] == [];
    assert NoneWaiting(jobs, r.dispatch[..0], r.slots[r.dispatch[0]].start);
    assert Finish(jobs, r, r.dispatch[0]) == r.slots[r.dispatch[1]].start;
  }

  lemma TwoJobByRank(jobs: seq<Job>, r: DayReport)
    requires |jobs| == 2 && jobs[0] == Job(0.0, 10.0) && jobs[1] == Job(2.0, 3.0)
    requires r == DayReport([Slot(0.0, 0.0), Slot(10.0, 8.0)], [0, 1], 4.0)
    requires Covers(jobs, r)
    ensures ByRank(jobs, r)
  {
    forall t, w | 0 <= t < |r.dispatch| && 0 <= w < |jobs|
      ensures (w !in r.dispatch[..t + 1] && jobs[w].arrival <= r.slots[r.dispatch[t]].start) ==>
        Outranks(jobs, r.dispatch[t], w)
    {
      if t == 0 {
        assert r.dispatch[..1] == [0];
        if w == 1 {
          assert jobs[w].arrival > r.slots[r.dispatch[t]].start;
        } else {
          assert w in r.dispatch[..1];
        }
      } else {
        assert r.dispatch[..2] == [0, 1];
        assert w in r.dispatch[..t + 1];
      }
    }
  }

  lemma TwoJobRules(jobs: seq<Job>, r: DayReport)
    requires |jobs| == 2 && jobs[0] == Job(0.0, 10.0) && jobs[1] == Job(2.0, 3.0)
    requires r == DayReport([Slot(0.0, 0.0), Slot(10.0, 8.0)], [0, 1], 4.0)
    ensures Schedules(jobs, r)
  {
    TwoJobCovers(jobs, r);
    TwoJobSequenced(jobs, r);
    TwoJobNoIdling(jobs, r);
    TwoJobByRank(jobs, r);
  }

  lemma TwoJobAverage(r: DayReport)
    requires r == DayReport([Slot(0.0, 0.0), Slot(10.0, 8.0)], [0, 1], 4.0)
    ensures Average(r.slots) == r.average
  {
    assert TotalDelay(r.slots) == 8.0 by {
      assert r.slots[..1] == [Slot(0.0, 0.0)];
      assert r.slots[..1][..0] == [];
    }
  }
}
