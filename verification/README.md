# Cobbler shop scheduler: a Dafny model of the daily delay computation

The program is a small desk tool for a cobbler's shop with one machine. Jobs are entered
per working day. Each job has an arrival minute (minutes after opening) and a duration in
minutes. "Compute Delay" replays every day as a discrete-event simulation of a single
non-preemptive machine. Jobs are admitted in arrival order. A short job (duration at most 5
minutes) jumps to the front of the waiting line; a long job joins the back. When the machine
is free it takes the front job. The run writes each job's start and delay (start minus
arrival) on it and reports every day's average delay. "Clear All" empties every day.

This project models that core as pure Dafny functions and proves what the loop guarantees:

- the queue rule: shorts last-admitted-first, longs first-admitted-first;
- admission in stable arrival order with a cursor that never moves back;
- a single machine with no overlap and no idling while someone waits;
- every job dispatched exactly once, and a clock that only moves forward, so the loop ends;
- the average as total over count, or zero for an empty day;
- the rules fix the schedule uniquely, and re-running the computation changes nothing;
- job validation, the book's days, and clearing.

Files, in dependency order:

| file | module | what it holds |
|---|---|---|
| `wrappers.dfy` | `Wrappers` | `Option`, `Result` |
| `jobs.dfy` | `Jobs` | `Job`, `Slot`, validity, the short-job limit, totals, averages, permutations |
| `arrival_order.dfy` | `ArrivalOrder` | the stable sort by arrival (`Order`) and its uniqueness |
| `discipline.dfy` | `Discipline` | the queue rule (`Enqueue`), the serving order `Outranks` |
| `machine.dfy` | `Machine` | the loop's state and one pass: `Admit`, `Release`, `Dispatch`, `NextEvent` |
| `invariants.dfy` | `Invariants` | the loop invariants and their preservation by each phase |
| `loop.dfy` | `Loop` | whole passes, the termination measure, the recursive run `Run` |
| `simulation.dfy` | `Simulation` | one day's report, the rules it follows (`Schedules`), uniqueness, the iterative loop `ComputeDay`, a worked day |
| `registry.dfy` | `Registry` | the book of days: `AddJob`, `ClearAll`, `ScheduleDay`, `ComputeDelay` |

Jobs of a day are named by their position in the day's list. The simulation returns a
`DayReport`, which holds:

- the slot (start, delay) of each job;
- the dispatch order;
- the average delay.

`Simulation.Schedules` states, independently of the loop, what a report following the shop's
rules looks like:

- every job starts no earlier than it arrives, and its delay is its wait;
- each job starts at the later of its arrival and its predecessor's finish;
- the machine is idle only while nobody still to be served has arrived;
- every dispatched job outranks every job that had arrived by its start and was still
  waiting.

`Simulation.SchedulesUnique` shows that the rules leave no freedom. So
`Simulation.SimulateIsTheSchedule` pins the simulation down as the one schedule the rules
describe.

## Model

| member | source | states |
|---|---|---|
| Registry.Open | CrankyClockMan.py:19 | a freshly opened book has exactly the given days, each with no jobs |
| Registry.AddJob | CrankyClockMan.py:83-95 | refused exactly when the arrival is negative, the duration is not positive, or the day is not in the book; a bad time is reported as such even for an unknown day; on success only the chosen day changes, gaining the new job at the end with no start or delay, and the book keeps its days |
| Registry.AddJobKeepsValid | CrankyClockMan.py:88-95 | adding a job keeps every recorded job valid (arrival at least 0, duration above 0) |
| Registry.ClearAll | CrankyClockMan.py:175-178 | the book keeps its days and every day is empty |
| Registry.ClearAllReopens | CrankyClockMan.py:177-178 | clearing yields the book as freshly opened with the same days, which is valid |
| ArrivalOrder.Order | CrankyClockMan.py:115 | the day's jobs in arrival order: a permutation of the positions, ordered by arrival with ties kept in entry order (a stable sort) |
| ArrivalOrder.StableSortIsOrder | CrankyClockMan.py:115 | any permutation ordered by arrival with ties in entry order is exactly `Order`: the stable sort's result is unique |
| Discipline.Enqueue | CrankyClockMan.py:127-130 | admitting a job adds exactly that job to the queue |
| Discipline.EnqueueAll | CrankyClockMan.py:125-131 | admitting a batch one job at a time grows the queue by exactly the batch's length; `EnqueueAllKeepsJobs` and `EnqueueAllShape` state which jobs and where |
| Discipline.EnqueueAllKeepsJobs | CrankyClockMan.py:125-131 | admitting a batch adds exactly the batch's jobs to the queue, losing none |
| Discipline.EnqueueAllShape | CrankyClockMan.py:125-131 | after a batch, the queue is the batch's short jobs in reverse, then the old queue, then the batch's long jobs in order |
| Discipline.ShortBatchReversed | CrankyClockMan.py:127-128 | short jobs admitted together are served last-admitted-first |
| Discipline.LongBatchInOrder | CrankyClockMan.py:129-130 | long jobs admitted together are served first-admitted-first, behind everything waiting |
| Discipline.OutranksOrders | CrankyClockMan.py:127-130 | the serving order (short before long, later short first, earlier long first) is a strict total order on the day's jobs: never both ways, one way or the other between two different jobs, and transitive |
| Discipline.EnqueueDisciplined | CrankyClockMan.py:127-130 | putting in a job admitted after everything waiting keeps the queue in serving order |
| Discipline.EnqueueAllDisciplined | CrankyClockMan.py:125-131 | admitting a batch that arrived after everything waiting keeps the queue in serving order |
| Machine.Initial | CrankyClockMan.py:116-121 | a day starts at minute 0 with nothing admitted, an empty queue, a free machine, no start or delay written on any job, a zero total and a zero count |
| Machine.AdmitFrom | CrankyClockMan.py:125-131 | the inner admission loop moves the cursor forward and never past the end of the arrival order; `AdmitFromDue`, `AdmitFromStops` and `AdmitFromEnqueues` state what it takes and how it queues it |
| Machine.Admit | CrankyClockMan.py:124-131 | only the cursor and queue change; the cursor never moves back; every job admitted has arrived by now; admission stops at the first job that has not; the queue is the old one with the admitted run enqueued in arrival order |
| Machine.AdmitFromDue | CrankyClockMan.py:125 | the admission loop takes only jobs that have arrived by the clock |
| Machine.AdmitFromStops | CrankyClockMan.py:125 | the admission loop stops at the first job that has not yet arrived |
| Machine.AdmitFromEnqueues | CrankyClockMan.py:125-131 | the admission loop enqueues the jobs it takes one at a time, in arrival order |
| Machine.Release | CrankyClockMan.py:133-135 | only the running job changes; the machine ends up free exactly when it was free or the clock has reached its job's completion, and otherwise keeps the same job; `Invariants.ReleaseCore` shows the loop invariants survive |
| Machine.Dispatch | CrankyClockMan.py:137-143 | on a free machine with someone waiting, the front job leaves the queue and starts now, its delay is now minus its arrival (0 if negative), no other job's slot changes, it joins the dispatch order, and the total and count grow by its delay and by one; otherwise nothing changes; the `Invariants.Dispatch*` lemmas show the loop invariants survive |
| Machine.Settle | CrankyClockMan.py:124-143 | a pass before the clock moves keeps every job it mentions a job of the day; `Loop.SettleKeeps` and `Loop.SettlePotential` state what it preserves and that it never adds work |
| Machine.NextEvent | CrankyClockMan.py:145-161 | no next event exactly when every job is admitted and the machine is free; otherwise the earliest of the next arrival and the running job's completion: no later than either that exists, and equal to one of them; `Loop.AdvanceFacts` shows it lies strictly after now |
| Invariants.InitialHead | CrankyClockMan.py:116-121 | the starting state (clock 0, empty queue, machine free, nothing written) satisfies the loop's head invariant |
| Invariants.AdmitCore | CrankyClockMan.py:124-131 | admission keeps every loop invariant: each job is waiting, served or still to arrive, exactly once; the waiting jobs have arrived; the queue is in serving order |
| Invariants.IdleHeadNoneWaiting | CrankyClockMan.py:123-131 | at the head of the loop an idle machine means no job still to be served has arrived before now |
| Invariants.ReleaseCore | CrankyClockMan.py:133-135 | freeing the machine keeps every loop invariant |
| Loop.ReadyAfterRelease | CrankyClockMan.py:133-138 | a machine found free after the completion check either was freed at its job's exact completion or finds nobody still to be served arrived before now |
| Invariants.FrontNotServed | CrankyClockMan.py:138-139 | the job at the front of the queue has not been dispatched before |
| Invariants.DispatchStamped | CrankyClockMan.py:139-141 | every written start is no earlier than the job's arrival and no later than now, and the delay is exactly start minus arrival, so the clamp at zero never bites |
| Invariants.DispatchTotals | CrankyClockMan.py:141-143 | the running total is the sum of the delays written and the count is the number dispatched |
| Invariants.DispatchChained | CrankyClockMan.py:138-141 | each dispatched job starts at the later of its arrival and its predecessor's completion |
| Invariants.DispatchPrompt | CrankyClockMan.py:138-141 | a job started on a machine that stood idle starts at a minute before which nobody still to be served had arrived |
| Invariants.DispatchPrioritized | CrankyClockMan.py:138-141 | the dispatched job outranks every job that had arrived by its start and was not yet served |
| Invariants.DispatchCore | CrankyClockMan.py:137-143 | dispatch keeps every loop invariant |
| Invariants.AdvanceCore | CrankyClockMan.py:158-159 | moving the clock forward keeps every loop invariant |
| Loop.AdvanceFacts | CrankyClockMan.py:145-159 | the next event lies strictly after the current minute and no later than any arrival to come, and at that minute an event is due |
| Loop.SettleKeeps | CrankyClockMan.py:123-143 | a pass from a head state keeps every loop invariant and leaves the clock where it was |
| Loop.SettlePotential | CrankyClockMan.py:123-143 | a pass never increases the work left (two per job to arrive, one per waiting job, one for a busy machine), and decreases it when an event is due |
| Loop.StepEnds | CrankyClockMan.py:158-161 | when no next event exists the loop is done: everything admitted, nobody waiting, machine free |
| Loop.StepAdvances | CrankyClockMan.py:123-161 | a pass that finds a next event reaches the next head state with a strictly later clock and a smaller termination measure |
| Loop.Run | CrankyClockMan.py:123-161 | the loop terminates in a state that keeps every invariant, with nothing left to do |
| Simulation.Report | CrankyClockMan.py:163-164 | the day's report follows the shop's rules, and its average is the mean delay (total over count, 0 for an empty day) |
| Simulation.Simulate | CrankyClockMan.py:114-164 | a day's simulation follows the shop's rules and reports the mean delay |
| Simulation.NoOverlap | CrankyClockMan.py:133-143 | one machine, no preemption: every job finishes before any later-dispatched job starts |
| Simulation.SchedulesUnique | CrankyClockMan.py:123-161 | two reports that both follow the rules have the same dispatch order and the same start and delay for every job |
| Simulation.SimulateIsTheSchedule | CrankyClockMan.py:114-164 | any report that follows the rules and averages over the day is the simulation's report |
| Simulation.ComputeDay | CrankyClockMan.py:116-164 | the iterative loop, run pass by pass, yields the day's simulation after at most two passes per job plus one |
| Simulation.RunDay | CrankyClockMan.py:123-161 | the iterative loop ends in the state the recursive run describes, within two passes per job plus one |
| Simulation.TwoJobDay | CrankyClockMan.py:114-164 | a 10-minute job at minute 0 and a 3-minute job at minute 2: the short job waits until minute 10, so the day's delays are 0 and 8 and the average is 4 |
| Jobs.Average | CrankyClockMan.py:164 | 0 for a day without jobs; otherwise the average times the number of jobs is the day's total delay |
| Registry.ScheduleDay | CrankyClockMan.py:114-171 | every record of the day gets a start no earlier than its arrival and its wait as delay; its job is unchanged; the slots written are the simulated schedule's; the average is the mean of the written delays |
| Registry.ScheduleDayIdempotent | CrankyClockMan.py:106-171 | re-running a day over its own results writes the same results |
| Registry.EmptyDay | CrankyClockMan.py:164 | a day without jobs writes nothing and averages 0 |
| Registry.ComputeDelay | CrankyClockMan.py:106-173 | every day of the book, and only those, is computed from its own jobs alone |
| Registry.ComputeDelayKeepsValid | CrankyClockMan.py:106-173 | computing keeps every recorded job, so the book stays valid |
| Registry.ComputeDelayIdempotent | CrankyClockMan.py:106-173 | pressing "Compute Delay" twice gives the same book and averages as pressing it once |
| Registry.DaysIndependent | CrankyClockMan.py:114-171 | adding a job to one day leaves every other day's results unchanged |

## Left out

- The tkinter interface is not modelled. This covers the window, styles, form widgets,
  message boxes, the job list's rows and their `tree_id`, the text report with its two-decimal
  formatting, and the resetting of input fields.
  The model returns the written records and each day's average instead of displaying them.
- Parsing the entry fields is not modelled. The form's fields are numeric toolkit variables,
  and reading them (lines 86-87) already yields numbers. A non-numeric or empty entry makes that
  read raise the toolkit's own error, not `ValueError`. So the handler at line 90 does not catch
  it: no "Invalid input" box appears, the error escapes `add_job`, and no job is added. The model
  takes the already read numbers and has no case for that path.
- Minutes are Dafny `real`s (exact), not IEEE doubles. Rounding in `start + duration` or
  `total / count` is not modelled.
- The fixed list of five weekday names is a parameter: the book's days are whatever set
  `Registry.Open` is given.
- Registry.AddJob: a day outside the book is refused with `UnknownDay`. The source would
  instead raise an uncaught lookup error after validation. Its day picker is read-only, so it
  never offers such a day.
- Simulation.Simulate: requires every job to have passed the entry validation (arrival at
  least 0, duration above 0). The source's loop runs on whatever a day's list holds, but
  only the add-job path fills the lists, and `Registry.BookValid` carries that guarantee
  to `ComputeDelay`. With a negative arrival the clamp at zero would matter, and that case
  is not modelled.
- The source mutates its job objects in place and keeps the start and delay of the previous
  run until the next run overwrites them. The model returns new records instead. Every job
  of a day is dispatched, so every record is overwritten either way.
- `Loop.Run` is the recursive form of the loop, and `Simulation.ComputeDay` is the loop as
  written. They are proved to agree. The termination measure (work left plus whether an
  event is due) is a proof device, not a quantity of the source.
