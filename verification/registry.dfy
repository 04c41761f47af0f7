/** The shop's book of jobs, one list per working day: adding a job, clearing every day, and
    computing every day's schedule and average delay. */
module Registry {
  import opened Wrappers
  import opened Jobs
  import Simulation

  /** A job as recorded under a day: the day it was entered for, its arrival and duration, and
      the start and delay the last simulation wrote on it (None until then). */
  datatype Record = Record(day: string, arrival: real, duration: real, start: Option<real>, delay: Option<real>)

  /** Every day's jobs, in the order they were entered. */
  type Book = map<string, seq<Record>>

  /** Why a job was refused. */
  datatype AddError =
    | InvalidTimes  // negative arrival or non-positive duration
    | UnknownDay    // the day is not one of the book's days

  /** What one day's simulation leaves: its records with start and delay written, and the
      day's average delay. */
  datatype DayResult = DayResult(records: seq<Record>, average: real)

  /** A book with the given days and no jobs. */
  function Open(days: set<string>): (b: Book)
    ensures b.Keys == days
    ensures forall d :: d in b ==> b[d] == []
  {
    map d | d in days :: []
  }

  function JobOf(rec: Record): Job {
    Job(rec.arrival, rec.duration)
  }

  /** The jobs of a day's records, position by position. */
  function JobsOf(records: seq<Record>): (jobs: seq<Job>)
    ensures |jobs| == |records|
    ensures forall i :: 0 <= i < |records| ==> jobs[i] == JobOf(records[i])
  {
    seq(|records|, i requires 0 <= i < |records| => JobOf(records[i]))
  }

  /** Every recorded job passed validation. */
  ghost predicate BookValid(b: Book) {
    forall d :: d in b ==> AllValid(JobsOf(b[d]))
  }

  /** Records a job under a day. Negative arrivals and non-positive durations are refused, as is
      a day the book does not have; otherwise the job is appended with nothing written on it. */
  function AddJob(b: Book, day: string, arrival: real, duration: real): (r: Result<Book, AddError>)
    ensures r.Failure? <==> arrival < 0.0 || duration <= 0.0 || day !in b
    ensures r.Failure? ==> r.error == (if arrival < 0.0 || duration <= 0.0 then InvalidTimes else UnknownDay)
    ensures r.Success? ==>
      && r.value.Keys == b.Keys
      && r.value[day] == b[day] + [Record(day, arrival, duration, None, None)]
      && (forall d :: d in b && d != day ==> r.value[d] == b[d])
  {
    if arrival < 0.0 || duration <= 0.0 then Failure(InvalidTimes)
    else if day !in b then Failure(UnknownDay)
    else Success(b[day := b[day] + [Record(day, arrival, duration, None, None)]])
  }

  /** Adding a job keeps every recorded job valid. */
  lemma AddJobKeepsValid(b: Book, day: string, arrival: real, duration: real)
    requires BookValid(b)
    ensures AddJob(b, day, arrival, duration).Success? ==> BookValid(AddJob(b, day, arrival, duration).value)
  {
    var r := AddJob(b, day, arrival, duration);
    if r.Success? {
      forall d | d in r.value
        ensures AllValid(JobsOf(r.value[d]))
      {
        if d == day {
          var jobs := JobsOf(r.value[d]);
          forall k | 0 <= k < |jobs|
            ensures Valid(jobs[k])
          {
            if k < |b[day]| {
              assert jobs[k] == JobsOf(b[day])[k];
            }
          }
        }
      }
    }
  }

  /** Empties every day of the book. */
  function ClearAll(b: Book): (r: Book)
    ensures r.Keys == b.Keys
    ensures forall d :: d in r ==> r[d] == []
  {
    map d | d in b :: []
  }

  /** Clearing gives back the book as it was opened, which trivially passes validation. */
  lemma ClearAllReopens(b: Book)
    ensures ClearAll(b) == Open(b.Keys)
    ensures BookValid(ClearAll(b))
  {
  }

  /** A record with a start and a delay written on it. */
  predicate Scheduled(rec: Record) {
    rec.start.Some? && rec.delay.Some?
  }

  function SlotOf(rec: Record): Slot
    requires Scheduled(rec)
  {
    Slot(rec.start.value, rec.delay.value)
  }

  /** The slots written on a day's records, position by position. */
  function SlotsOf(records: seq<Record>): (slots: seq<Slot>)
    requires forall i :: 0 <= i < |records| ==> Scheduled(records[i])
    ensures |slots| == |records|
    ensures forall i :: 0 <= i < |records| ==> slots[i] == SlotOf(records[i])
  {
    seq(|records|, i requires 0 <= i < |records| => SlotOf(records[i]))
  }

  /** `after` is `before` with a start and a delay written on it that agree with its job. */
  predicate Rewritten(before: Record, after: Record) {
    && after == before.(start := after.start, delay := after.delay)
    && Scheduled(after)
    && Consistent(JobOf(before), SlotOf(after))
  }

  /** Writes each slot on the record at the same position. */
  function StampAll(records: seq<Record>, slots: seq<Slot>): (w: seq<Record>)
    requires |slots| == |records|
    ensures |w| == |records|
    ensures forall i :: 0 <= i < |records| ==>
      w[i] == records[i].(start := Some(slots[i].start), delay := Some(slots[i].delay))
  {
    seq(|records|, i requires 0 <= i < |records| =>
      records[i].(start := Some(slots[i].start), delay := Some(slots[i].delay)))
  }

  /** Writing slots that agree with their jobs rewrites every record and keeps the day's jobs. */
  lemma StampAllFacts(records: seq<Record>, slots: seq<Slot>)
    requires |slots| == |records|
    requires forall i :: 0 <= i < |records| ==> Consistent(JobOf(records[i]), slots[i])
    ensures forall i :: 0 <= i < |records| ==> Rewritten(records[i], StampAll(records, slots)[i])
    ensures JobsOf(StampAll(records, slots)) == JobsOf(records)
    ensures SlotsOf(StampAll(records, slots)) == slots
  {
  }

  /** The jobs named by a day's records, as the simulation sees them, agree with their slots. */
  lemma SimulatedWaits(records: seq<Record>)
    requires AllValid(JobsOf(records))
    ensures |Simulation.Simulate(JobsOf(records)).slots| == |records|
    ensures forall i :: 0 <= i < |records| ==>
      Consistent(JobOf(records[i]), Simulation.Simulate(JobsOf(records)).slots[i])
  {
    var jobs := JobsOf(records);
    var report := Simulation.Simulate(jobs);
    assert Simulation.Waits(jobs, report);
    forall i | 0 <= i < |records|
      ensures Consistent(JobOf(records[i]), report.slots[i])
    {
      assert jobs[i] == JobOf(records[i]);
    }
  }

  /** Simulates one day and writes every job's start and delay on its record. Every record is
      rewritten with a start no earlier than its arrival and the wait as its delay, the slots
      written are the simulated schedule's, and the average is over all the day's jobs. */
  function ScheduleDay(records: seq<Record>): (r: DayResult)
    requires AllValid(JobsOf(records))
    ensures |r.records| == |records|
    ensures forall i :: 0 <= i < |records| ==> Scheduled(r.records[i])
    ensures forall i :: 0 <= i < |records| ==> Rewritten(records[i], r.records[i])
    ensures JobsOf(r.records) == JobsOf(records)
    ensures SlotsOf(r.records) == Simulation.Simulate(JobsOf(records)).slots
    ensures r.average == Average(SlotsOf(r.records))
  {
    var report := Simulation.Simulate(JobsOf(records));
    SimulatedWaits(records);
    StampAllFacts(records, report.slots);
    DayResult(StampAll(records, report.slots), report.average)
  }

  /** Re-running a day overwrites the previous results with the same ones. */
  lemma ScheduleDayIdempotent(records: seq<Record>)
    requires AllValid(JobsOf(records))
    ensures ScheduleDay(ScheduleDay(records).records) == ScheduleDay(records)
  {
  }

  /** A day without jobs writes nothing and averages zero. */
  lemma EmptyDay()
    ensures ScheduleDay([]) == DayResult([], 0.0)
  {
  }

  /** What computing the delays leaves: every day's records rewritten, and every day's average. */
  datatype Outcome = Outcome(book: Book, averages: map<string, real>)

  /** Computes every day of the book on its own. */
  function ComputeDelay(b: Book): (r: Outcome)
    requires BookValid(b)
    ensures r.book.Keys == b.Keys && r.averages.Keys == b.Keys
    ensures forall d :: d in b ==>
      r.book[d] == ScheduleDay(b[d]).records && r.averages[d] == ScheduleDay(b[d]).average
  {
    Outcome(map d | d in b :: ScheduleDay(b[d]).records, map d | d in b :: ScheduleDay(b[d]).average)
  }

  /** Computing keeps every recorded job, so the book stays valid. */
  lemma ComputeDelayKeepsValid(b: Book)
    requires BookValid(b)
    ensures BookValid(ComputeDelay(b).book)
  {
    var r := ComputeDelay(b);
    forall d | d in r.book
      ensures AllValid(JobsOf(r.book[d]))
    {
      assert JobsOf(r.book[d]) == JobsOf(b[d]);
    }
  }

  /** A second computation changes nothing: every day's results are overwritten with the same. */
  lemma ComputeDelayIdempotent(b: Book)
    requires BookValid(b)
    ensures BookValid(ComputeDelay(b).book)
    ensures ComputeDelay(ComputeDelay(b).book) == ComputeDelay(b)
  {
    var r := ComputeDelay(b);
    ComputeDelayKeepsValid(b);
    var again := ComputeDelay(r.book);
    forall d | d in b
      ensures again.book[d] == r.book[d] && again.averages[d] == r.averages[d]
    {
      ScheduleDayIdempotent(b[d]);
    }
    SameEntries(again.book, r.book);
    SameEntries(again.averages, r.averages);
  }

  /** Two maps with the same days and the same entry for each day are equal. */
  lemma SameEntries<V>(m: map<string, V>, m': map<string, V>)
    requires m.Keys == m'.Keys
    requires forall d :: d in m ==> m[d] == m'[d]
    ensures m == m'
  {
  }

  /** Days do not interact: adding a job to one day leaves every other day's results alone. */
  lemma DaysIndependent(b: Book, day: string, arrival: real, duration: real, other: string)
    requires BookValid(b) && other in b && other != day
    requires AddJob(b, day, arrival, duration).Success?
    ensures BookValid(AddJob(b, day, arrival, duration).value)
    ensures ComputeDelay(AddJob(b, day, arrival, duration).value).book[other] == ComputeDelay(b).book[other]
    ensures ComputeDelay(AddJob(b, day, arrival, duration).value).averages[other] == ComputeDelay(b).averages[other]
  {
    AddJobKeepsValid(b, day, arrival, duration);
  }
}
