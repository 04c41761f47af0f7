/** The day's event loop: one pass settles the state at the current minute and moves the clock to
    the next event; the loop runs passes until no event is left. */
module Loop {
  import opened Wrappers
  import opened Jobs
  import opened ArrivalOrder
  import opened Discipline
  import opened Machine
  import opened Invariants

  /** Admission can only shrink the work left, and shrinks it when an arrival is due. */
  lemma AdmitPotential(jobs: seq<Job>, order: seq<nat>, s: State)
    requires Shaped(jobs, order, s)
    ensures Potential(order, Admit(jobs, order, s)) == Potential(order, s) - (Admit(jobs, order, s).cursor - s.cursor)
    ensures s.cursor < |order| && jobs[order[s.cursor]].arrival <= s.clock ==> Admit(jobs, order, s).cursor > s.cursor
  {
    var a := Admit(jobs, order, s);
    EnqueueAllKeepsJobs(jobs, s.queue, order[s.cursor..a.cursor]);
    assert |multiset(a.queue)| == |multiset(s.queue)| + |multiset(order[s.cursor..a.cursor])|;
  }

  /** After admission, a machine that was idle at the head of the loop is ready for the front
      job; one that was busy is ready only once its job has finished. */
  lemma ReadyAfterRelease(jobs: seq<Job>, order: seq<nat>, s: State)
    requires Context(jobs, order) && Head(jobs, order, s)
    ensures
      var r := Release(jobs, order, Admit(jobs, order, s));
      r.running.None? ==> Ready(jobs, r)
  {
    if s.running.None? {
      ReadyWhenIdle(jobs, order, s);
    } else {
      ReadyWhenFreed(jobs, order, s);
    }
  }

  lemma ReadyWhenIdle(jobs: seq<Job>, order: seq<nat>, s: State)
    requires Context(jobs, order) && Head(jobs, order, s) && s.running.None?
    ensures Ready(jobs, Release(jobs, order, Admit(jobs, order, s)))
  {
    var r := Release(jobs, order, Admit(jobs, order, s));
    IdleHeadNoneWaiting(jobs, order, s);
    assert r.served == s.served && r.clock == s.clock;
  }

  lemma ReadyWhenFreed(jobs: seq<Job>, order: seq<nat>, s: State)
    requires Shaped(jobs, order, s) && Tracking(jobs, s) && s.running.Some?
    requires s.clock <= Completion(jobs, s.slots, s.running.value)
    ensures
      var r := Release(jobs, order, Admit(jobs, order, s));
      r.running.None? ==> Ready(jobs, r)
  {
    var a := Admit(jobs, order, s);
    var r := Release(jobs, order, a);
    assert a.running == s.running && a.slots == s.slots && a.served == s.served && a.clock == s.clock;
    if r.running.None? {
      assert r.served == s.served && r.slots == s.slots && r.clock == s.clock;
      assert s.clock == Completion(jobs, s.slots, s.running.value);
    }
  }

  /** What a pass leaves before the clock moves: the invariants, every due arrival admitted, a
      busy machine whose job is not yet done, and an idle machine with nobody waiting. */
  ghost predicate Settled(jobs: seq<Job>, order: seq<nat>, t: State) {
    && Core(jobs, order, t)
    && Unreached(jobs, order, t)
    && (t.running.Some? ==> t.clock < Completion(jobs, t.slots, t.running.value))
    && (t.running.None? ==> t.queue == [])
  }

  /** What admission and the completion check leave for dispatch: the invariants, every due
      arrival admitted, a busy machine whose job is not yet done, and a free machine ready for
      the front job. */
  ghost predicate Released(jobs: seq<Job>, order: seq<nat>, r: State) {
    && Core(jobs, order, r)
    && Unreached(jobs, order, r)
    && (r.running.Some? ==> r.clock < Completion(jobs, r.slots, r.running.value))
    && (r.running.None? ==> Ready(jobs, r))
  }

  lemma ReleaseKeeps(jobs: seq<Job>, order: seq<nat>, s: State)
    requires Context(jobs, order) && Head(jobs, order, s)
    ensures Released(jobs, order, Release(jobs, order, Admit(jobs, order, s)))
    ensures Release(jobs, order, Admit(jobs, order, s)).clock == s.clock
  {
    var a := Admit(jobs, order, s);
    AdmitCore(jobs, order, s);
    AdmitUnreached(jobs, order, s);
    var r := Release(jobs, order, a);
    ReleaseCore(jobs, order, a);
    assert r.cursor == a.cursor && r.clock == a.clock;
    assert Unreached(jobs, order, r);
    ReadyAfterRelease(jobs, order, s);
  }

  /** Dispatching onto a free machine starts a job that is not yet done. */
  lemma DispatchStarts(jobs: seq<Job>, order: seq<nat>, r: State)
    requires Context(jobs, order) && Released(jobs, order, r)
    requires r.running.None? && |r.queue| > 0
    ensures Settled(jobs, order, Dispatch(jobs, order, r))
  {
    var t := Dispatch(jobs, order, r);
    DispatchCore(jobs, order, r);
    assert t.cursor == r.cursor && t.clock == r.clock;
    assert Unreached(jobs, order, t);
    assert Valid(jobs[t.running.value]);
  }

  lemma DispatchSettles(jobs: seq<Job>, order: seq<nat>, r: State)
    requires Context(jobs, order) && Released(jobs, order, r)
    ensures Settled(jobs, order, Dispatch(jobs, order, r))
    ensures Dispatch(jobs, order, r).clock == r.clock
  {
    if r.running.None? && |r.queue| > 0 {
      DispatchStarts(jobs, order, r);
    } else {
      assert Dispatch(jobs, order, r) == r;
    }
  }

  lemma SettleKeeps(jobs: seq<Job>, order: seq<nat>, s: State)
    requires Context(jobs, order) && Head(jobs, order, s)
    ensures Settled(jobs, order, Settle(jobs, order, s))
    ensures Settle(jobs, order, s).clock == s.clock
  {
    ReleaseKeeps(jobs, order, s);
    DispatchSettles(jobs, order, Release(jobs, order, Admit(jobs, order, s)));
  }

  /** A pass never increases the work left, and decreases it when an event is due. */
  lemma SettlePotential(jobs: seq<Job>, order: seq<nat>, s: State)
    requires Shaped(jobs, order, s)
    ensures Potential(order, Settle(jobs, order, s)) <= Potential(order, s)
    ensures Pending(jobs, order, s) ==> Potential(order, Settle(jobs, order, s)) < Potential(order, s)
  {
    var a := Admit(jobs, order, s);
    AdmitPotential(jobs, order, s);
    if s.running.Some? && s.clock >= Completion(jobs, s.slots, s.running.value) {
      assert a.running == s.running && a.slots == s.slots && a.clock == s.clock;
    }
  }

  /** Moving the clock to the next event moves it strictly forward and reaches a head state at
      which an event is due. */
  lemma AdvanceFacts(jobs: seq<Job>, order: seq<nat>, t: State, c: real)
    requires Context(jobs, order) && Settled(jobs, order, t)
    requires NextEvent(jobs, order, t) == Some(c)
    ensures t.clock < c
    ensures Head(jobs, order, t.(clock := c))
    ensures Pending(jobs, order, t.(clock := c))
    ensures Active(order, t.(clock := c))
  {
    var n := t.(clock := c);
    AdvanceCore(jobs, order, t, c);
    if t.cursor < |order| {
      LaterArrivals(jobs, order, t.cursor, c);
    }
    assert n.slots == t.slots && n.running == t.running;
  }

  /** In arrival order, every job from the cursor on arrives no earlier than the cursor's job. */
  lemma LaterArrivals(jobs: seq<Job>, order: seq<nat>, cursor: nat, c: real)
    requires Sorted(jobs, order) && cursor < |order|
    requires forall k :: 0 <= k < |order| ==> order[k] < |jobs|
    requires c <= jobs[order[cursor]].arrival
    ensures forall k :: cursor <= k < |order| ==> c <= jobs[order[k]].arrival
  {
    forall k | cursor < k < |order|
      ensures c <= jobs[order[k]].arrival
    {
      assert Before(jobs, order[cursor], order[k]);
    }
  }

  /** A pass that finds no next event leaves nothing to do. */
  lemma StepEnds(jobs: seq<Job>, order: seq<nat>, s: State)
    requires Context(jobs, order) && Head(jobs, order, s)
    requires NextEvent(jobs, order, Settle(jobs, order, s)).None?
    ensures Core(jobs, order, Settle(jobs, order, s)) && !Active(order, Settle(jobs, order, s))
  {
    SettleKeeps(jobs, order, s);
  }

  /** A pass that finds a next event reaches the next head state with a later clock and a
      smaller measure. */
  lemma StepAdvances(jobs: seq<Job>, order: seq<nat>, s: State, c: real)
    requires Context(jobs, order) && Head(jobs, order, s)
    requires NextEvent(jobs, order, Settle(jobs, order, s)) == Some(c)
    ensures
      var n := Settle(jobs, order, s).(clock := c);
      && Head(jobs, order, n)
      && Active(order, n)
      && s.clock < c
      && Measure(jobs, order, n) < Measure(jobs, order, s)
  {
    var t := Settle(jobs, order, s);
    SettleKeeps(jobs, order, s);
    AdvanceFacts(jobs, order, t, c);
    MeasureDrops(jobs, order, s, c);
  }

  /** Reaching a due event after a pass leaves less work than the pass started with. */
  lemma MeasureDrops(jobs: seq<Job>, order: seq<nat>, s: State, c: real)
    requires Shaped(jobs, order, s) && Shaped(jobs, order, Settle(jobs, order, s).(clock := c))
    requires Pending(jobs, order, Settle(jobs, order, s).(clock := c))
    ensures Measure(jobs, order, Settle(jobs, order, s).(clock := c)) < Measure(jobs, order, s)
  {
    var t := Settle(jobs, order, s);
    SettlePotential(jobs, order, s);
    assert Potential(order, t.(clock := c)) == Potential(order, t);
  }

  /** The loop from a head state: passes until the next-event search comes back empty, or no
      pass at all when there is nothing to do. The result has every job admitted, none waiting,
      the machine free, and all the invariants. */
  function Run(jobs: seq<Job>, order: seq<nat>, s: State): (r: State)
    requires Context(jobs, order) && Head(jobs, order, s)
    ensures Core(jobs, order, r) && !Active(order, r)
    decreases Measure(jobs, order, s)
  {
    if !Active(order, s) then s
    else
      var t := Settle(jobs, order, s);
      match NextEvent(jobs, order, t)
      case None => StepEnds(jobs, order, s); t
      case Some(c) => StepAdvances(jobs, order, s, c); Run(jobs, order, t.(clock := c))
  }
}
