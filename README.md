# Hybrid CPU scheduler, modelled and verified in Dafny

This project models the hybrid CPU-scheduling simulation of `scheduler.py`.
The simulation keeps two queues. One is a priority queue, re-sorted every
tick on the user's priority rule. The other is a round-robin ring for
processes that have waited too long. The simulation advances one tick at a
time until every process has completed. Each tick does eight things, in order:

1. admit the processes that have arrived;
2. migrate long waiters from the priority queue to the ring;
3. choose the process to run;
4. reset its quantum and rotate the ring on preemption;
5. run it for one tick;
6. count the quantum;
7. detect completion;
8. age every waiting process.

At the end, the scheduler reports per-process metrics in pid order.

Modules:

- `Processes` (`processes.dfy`): the process record, the three tuning
  constants (aging threshold 8, ring-wait threshold 10, quantum 4) and the
  priority rule.
- `Sorting` (`sorting.dfy`): Python's stable `list.sort` on a tuple key, as an
  insertion sort. It is proved sorted, a permutation and stable, and its head
  is proved to be the first minimum.
- `Scheduler` (`scheduler.dfy`): every step of the tick as a function on the
  loop's state (`Sim`), then `Tick`, and `Run`, which iterates `Tick`.
- `Engine` (`engine.dfy`): the scheduler as the program runs it. It has the
  admission loop, the migration pass, the aging pass, one method per step, the
  tick loop and the driver. Each method is proved to compute the
  corresponding `Scheduler` function.
- `TickFacts` (`tick_facts.dfy`): exact statements of what each step and
  each tick does.
- `Invariants` (`invariants.dfy`): the loop invariant, its preservation by
  every tick, and what follows from it.
- `Metrics` (`metrics.dfy`): the metric arithmetic of the results report.

The Python process objects are shared between the process list and the two
queues. Here every record lives once in the state's `procs` sequence, and
both queues hold indices into it. So an update made through a queue is seen
through the list, exactly as with the shared objects. The two messages the
loop prints (migration to the ring and a priority boost) are appended to an
event log.

## Model

| member | source | states |
|---|---|---|
| Processes.NewProcess | scheduler.py:11-29 | a new process has the given pid, arrival, burst and priority, and every dynamic field at its initial value (`Pristine`) |
| Scheduler.Admit | scheduler.py:93-95 | admission appends exactly the indices `nextIdx ..` of the processes that have arrived, in list order, each with arrival <= now, and stops at the first that has not arrived |
| Engine.AdmitArrivals | scheduler.py:93-95 | the admission loop computes `Admit` |
| Engine.MigrateLongWaiters | scheduler.py:98-106 | the migration loop computes `Migrate` |
| Scheduler.Migrate | scheduler.py:98-106 | the migration step as a function of the loop state; it keeps every queue entry a valid index and the process list's length. Its exact effect is stated by `TickFacts.MigrateExact` |
| TickFacts.MigrateExact | scheduler.py:98-106 | migration keeps exactly the non-long-waiters in the priority queue, in order; it appends exactly the long waiters (total wait >= 10, not yet in the ring) to the ring's tail, in order, and flags them; it logs one move message per moved process, in the same order, stamped with the current time; clock, Gantt chart, admission index, completed count and last-run pid are unchanged |
| TickFacts.SplitMembers | scheduler.py:98-106 | the processes that stay in the priority queue are exactly its members that are not long waiters, those that move are exactly the long waiters, and neither group repeats an entry when the queue does not |
| TickFacts.SweepFrame | scheduler.py:99-105 | the migration pass neither loses nor adds queue entries, changes nothing in a record except the ring flag, and never clears that flag |
| Scheduler.Rotate | scheduler.py:133 | `rotate(-1)` keeps the ring's members and length |
| Sorting.SortBySorted | scheduler.py:119 | the sorted queue is ordered by the rule's key |
| Sorting.SortByStable | scheduler.py:119 | entries with equal keys keep their relative order |
| Sorting.SortByHead | scheduler.py:119-120 | the sorted queue's head is the first entry, in queue order, with the least key |
| Sorting.SortByDistinct | scheduler.py:119 | sorting keeps distinct values distinct |
| Sorting.SortBy | scheduler.py:119 | `list.sort` with a key returns a permutation of its input: same members, same length |
| Scheduler.Prepare | scheduler.py:93-120 | admission, migration and, when the priority queue is not empty, its sort, as one function; the state stays well formed. Its effect is stated by `TickFacts.PrepareFrame` and `TickFacts.SelectionRule` |
| Scheduler.Chosen | scheduler.py:109-122 | nothing is chosen exactly when both queues are empty; a chosen process is a member of one of the queues |
| TickFacts.SelectionRule | scheduler.py:109-122 | a non-empty priority queue always wins, and its first least-key entry runs; otherwise the ring's head runs; with both queues empty nothing runs |
| TickFacts.SelectionStable | scheduler.py:119-120 | processes tied on the rule's key keep their queue order in the sort |
| TickFacts.IdleTick | scheduler.py:124-126 | a tick is idle exactly when both queues are empty and the next process has not arrived; an idle tick changes only the clock |
| Engine.PrepareStep | scheduler.py:93-119 | admission, migration and the sort, run one after the other on the loop state, compute `Prepare` |
| TickFacts.PrepareFrame | scheduler.py:93-119 | admission, migration and sort leave the clock, the Gantt chart, the completed count and the last-run pid alone, and change a record only by setting its ring flag |
| Engine.PreemptStep | scheduler.py:129-133 | the preemption step computes `Preempt` |
| Scheduler.Preempt | scheduler.py:129-133 | the preemption step as a function; it keeps the state well formed. Its effect, including when the ring rotates, is stated by `TickFacts.PreemptEffect` |
| TickFacts.PreemptEffect | scheduler.py:129-133 | a change of running pid resets the chosen process's quantum to 0; the ring rotates exactly when the previous pid is not -1, differs from the chosen pid, and belongs to some ring entry; running the same pid again changes nothing |
| Engine.ExecuteStep | scheduler.py:136-144 | the execution step computes `Execute` |
| Scheduler.Execute | scheduler.py:136-144 | the execution step as a function; it keeps the state well formed. Its effect is stated by `TickFacts.ExecuteEffect` |
| TickFacts.ExecuteEffect | scheduler.py:136-144 | execution records the start and response time on the first run only, appends the Gantt entry at the current time, takes one unit of remaining time, advances the clock by one and records the pid as last run |
| Engine.QuantumStep | scheduler.py:147-152 | the quantum step computes `Quantum` |
| Scheduler.Quantum | scheduler.py:147-152 | the quantum step as a function; it keeps the state well formed. Its effect is stated by `TickFacts.QuantumEffect` |
| TickFacts.QuantumEffect | scheduler.py:147-152 | a ring process's quantum grows by one; on reaching 4 it resets to 0, the ring rotates exactly once and the last-run pid becomes -1; otherwise the last-run pid is kept; a priority-queue process is untouched |
| Engine.CompleteStep | scheduler.py:155-165 | the completion step computes `Complete` |
| Scheduler.Complete | scheduler.py:155-165 | the completion step as a function; it keeps the state well formed. Its effect is stated by `TickFacts.CompleteEffect` |
| Engine.DispatchStep | scheduler.py:128-184 | preemption, execution, quantum, completion and aging, run one after the other on the chosen process, compute `Dispatch` |
| Scheduler.Dispatch | scheduler.py:128-184 | steps 4 to 8 for the chosen process, composed; the state stays well formed |
| TickFacts.CompleteEffect | scheduler.py:155-165 | remaining time 0 marks the process completed at the current time, counts it and clears the last-run pid; a ring process pops the ring, and a priority-queue process pops the priority queue, only if that queue's head carries its pid, and the other queue is unchanged; otherwise nothing changes |
| Engine.AgeWaiting | scheduler.py:168-184 | the aging loop computes `Age` |
| Scheduler.AgeOne | scheduler.py:169-184 | aging one process never changes its pid, arrival, burst, original priority, completed flag or ring flag, and prints at most one message, exactly when it gets a priority boost |
| Scheduler.Age | scheduler.py:168-184 | the aging pass over both queues as a function; it keeps the state well formed. Its effect is stated by `TickFacts.AgeExact` and `TickFacts.AgeFrame` |
| TickFacts.AgeOneRule | scheduler.py:169-184 | a completed or just-run process is left alone; any other gains one tick of total wait; when its since-boost counter reaches 8 its priority improves by one and the counter restarts with a message: under rule '1' only while the priority is above 1, otherwise always |
| TickFacts.AgeExact | scheduler.py:168-171 | aging applies the one-process rule once to every queued process and leaves every unqueued process unchanged |
| TickFacts.AgeFrame | scheduler.py:168-184 | aging changes only the three aging fields of each record and the message log |
| TickFacts.AgeUpToFloor | scheduler.py:175-179 | under rule '1' aging never takes a priority below 1 unless it started there |
| Engine.TickStep | scheduler.py:91-184 | one iteration of the loop computes `Tick` |
| Scheduler.Tick | scheduler.py:91-184 | one tick: the steps before the choice, then an idle tick or dispatch; the state stays well formed and the list keeps its length |
| TickFacts.TickClock | scheduler.py:124-143 | every tick advances the clock by one; a tick that runs a process adds exactly one Gantt entry, with its pid at the tick's start time; an idle tick adds none |
| TickFacts.TickFrame | scheduler.py:98-165 | a tick never changes a process's pid, arrival, burst or original priority and never clears a ring flag; exactly the process that runs loses one unit of remaining time |
| TickFacts.TickStart | scheduler.py:136-138 | the first run records start = the tick's time and response = start - arrival; later runs keep both |
| TickFacts.TickCompletion | scheduler.py:155-158 | a run that brings remaining time to 0 marks completion at the post-tick time and adds one to the completed count; any other run completes nothing |
| TickFacts.TickOthers | scheduler.py:136-158 | a process that does not run is neither started nor completed by the tick |
| Invariants.AdmitInv | scheduler.py:93-95 | admission keeps the loop invariant |
| Invariants.MigrateInv | scheduler.py:98-106 | migration keeps the loop invariant |
| Invariants.PrepareInv | scheduler.py:119 | the sort keeps the loop invariant |
| Invariants.PrepareInvFrom | scheduler.py:93-119 | admission, migration and the sort together keep the loop invariant |
| Invariants.IdleInv | scheduler.py:124-126 | an idle tick keeps the loop invariant |
| Invariants.ServeInv | scheduler.py:128-165 | steps 4 to 7 keep the loop invariant |
| Invariants.ServePops | scheduler.py:160-165 | a queue that completion pops loses only its head, that head is the process that ran, and this happens only when that process completes; a priority-queue process that completes is always popped |
| Invariants.AgeInv | scheduler.py:168-184 | aging keeps the loop invariant |
| Invariants.DispatchInv | scheduler.py:128-184 | running the chosen process and aging the others keep the loop invariant |
| Invariants.TickInv | scheduler.py:91-184 | every tick keeps the loop invariant. No queue has repeats. The priority queue holds only admitted, unfinished, non-ring processes. The ring holds only ring processes. Every admitted unfinished process waits in the queue its flag names. Quantum stays in 0..3. Response = start - arrival >= 0. Completion lies between start + burst and now. Completed exactly when remaining time has reached 0. The completed counter counts completed records. Gantt times are strictly increasing and earlier than now |
| Invariants.InitialInv | scheduler.py:79-89 | the state before the first tick satisfies the invariant when all processes are new and pids are distinct |
| Scheduler.Initial | scheduler.py:79-89 | the state before the first tick holds exactly the given processes (the same multiset) and is well formed; that they are in arrival order is `Sorting.SortBySorted` |
| Invariants.RunInv | scheduler.py:91-184 | every state the loop reaches satisfies the invariant |
| Invariants.AdmitExact | scheduler.py:86-95 | because the list is sorted by arrival, admission takes exactly the not-yet-admitted processes that have arrived, and appends them in nondecreasing arrival order |
| Invariants.IdleMeansDone | scheduler.py:109-126 | an idle tick happens only when every admitted process has completed |
| Invariants.FloorRun | scheduler.py:175-179 | under rule '1' no priority ever drops below 1 unless it started there |
| Invariants.FinalMetrics | scheduler.py:136-158 | when the loop ends with every process completed, each process has 0 <= response = start - arrival <= waiting time |
| Engine.RunTicks | scheduler.py:91 | the tick loop computes `Run` |
| Scheduler.Run | scheduler.py:91 | `Tick` iterated while some process has not completed, for at most `fuel` ticks; the state stays well formed |
| Engine.HybridScheduler | scheduler.py:76-188 | the scheduler runs the tick loop on the processes sorted by arrival and reports the metrics of the final state |
| Metrics.RowOf | scheduler.py:61-62 | turnaround = completion - arrival, waiting = turnaround - burst, and the other columns are the process's own fields |
| Metrics.PrintResults | scheduler.py:53-65 | the report lists the rows of the processes sorted by pid, and the three totals are the sums of their columns |
| Metrics.Tabulate | scheduler.py:60-65 | the loop over the sorted processes builds one row per process, in order, and its three running totals are the column sums |
| Metrics.ReportOrderedByPid | scheduler.py:54 | the report has one row per process, in ascending pid order (strictly ascending when pids are distinct) |
| Metrics.TotalsIdentity | scheduler.py:61-64 | total waiting = total turnaround - total burst, and total turnaround = total completion - total arrival |
| Metrics.ReportTotals | scheduler.py:61-64 | every report satisfies those two identities |

## Left out

- `print_gantt_chart` (scheduler.py:31-46) is presentation only. The Gantt chart itself is modelled as the list of `(pid, time)` entries.
- The table printing and the three averages of `print_results` (scheduler.py:56-59, 67-73) are left out. The averages are floating-point divisions of the integer totals, which are modelled. The unused `total_time` parameter is left out too.
- Metrics.PrintResults, Engine.HybridScheduler: both sorts work in place on the caller's list (scheduler.py:54, 86). The model returns the sorted sequence instead and does not model the caller seeing its list reordered.
- The messages printed at scheduler.py:103, 178 and 183 are modelled as entries of an event log, not as text.
- The interactive `__main__` block (scheduler.py:190-213) reads from the console. The input-validation block after it is a string literal and never runs.
- app.py is not part of this model. It is a web adapter with no scheduling logic.
- Engine.HybridScheduler, Engine.RunTicks: termination of the tick loop is not proved. The loop runs for at most `fuel` ticks, so a run that would need more ticks is cut short.
- The priority rule is a two-case datatype. The program compares the user's string with '1', and any other string behaves like the second case.
- Object identity is not modelled beyond the index: each record is stored once and the queues refer to it by index. The invariants show that no queue holds an index twice.
- Invariants.InitialInv assumes distinct pids. The program matches queue heads by pid at completion (scheduler.py:161, 164), so with a repeated pid it could pop another process with the same pid.
- A completed process can stay in the ring. When the quantum expires on the tick it completes, the ring has already rotated, so completion does not pop it (scheduler.py:150, 160-162). It can then run again and drive its remaining time below 0. The model keeps this behaviour. It therefore does not claim that remaining time stays non-negative or that the ring holds no completed process. It does prove that the priority queue never holds a completed process.
- Where comments and code differ, the code is followed. Migration uses total wait >= 10, not > 10 (scheduler.py:6, 100). Aging uses the since-last-boost counter (scheduler.py:5, 172). Under rule '1', a process held at priority 1 keeps its counter (scheduler.py:176-179).
- The program prints no arrival or completion messages, so the event log has no such entries.
