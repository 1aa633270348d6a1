/**
 * The scheduler's loops, written as the program runs them: the tick loop,
 * and inside it the admission loop, the migration pass and the aging pass.
 * Each method is proved to compute the corresponding function of module
 * `Scheduler`.
 */
module Engine {
  import opened Processes
  import opened Sorting
  import opened Scheduler
  import TickFacts
  import Metrics

  /** Step 1: append every arrived process to the priority queue. */
  method AdmitArrivals(s: Sim) returns (t: Sim)
    requires WellFormed(s)
    ensures t == Admit(s)
  {
    var pq: seq<nat>, idx: nat := s.pq, s.nextIdx;
    while idx < |s.procs| && s.procs[idx].arrivalTime <= s.time
      invariant s.nextIdx <= idx <= |s.procs|
      invariant InRange(pq, |s.procs|)
      invariant Admit(s.(pq := pq, nextIdx := idx)) == Admit(s)
      decreases |s.procs| - idx
    {
      TickFacts.AdmitNext(s.(pq := pq, nextIdx := idx));
      pq := pq + [idx];
      idx := idx + 1;
    }
    t := s.(pq := pq, nextIdx := idx);
  }

  /** Step 2: move long waiters from the priority queue to the ring's tail. */
  method MigrateLongWaiters(s: Sim) returns (t: Sim)
    requires WellFormed(s)
    ensures t == Migrate(s)
  {
    var procs, keep, rr, log := s.procs, [], s.rr, s.log;
    for k := 0 to |s.pq|
      invariant Sweep(procs, keep, rr, log) == SweepUpTo(s, k)
    {
      var i := s.pq[k];
      var p := procs[i];
      if p.totalWaitTime >= RrWaitThreshold && !p.isInRrQueue {
        procs := procs[i := p.(isInRrQueue := true)];
        rr := rr + [i];
        log := log + [MovedToRr(s.time, p.pid)];
      } else {
        keep := keep + [i];
      }
    }
    t := s.(procs := procs, pq := keep, rr := rr, log := log);
  }

  /** Step 8: age every queued process that is not completed and did not run. */
  method AgeWaiting(rule: Rule, s: Sim, ranPid: int) returns (t: Sim)
    requires WellFormed(s)
    ensures t == Age(rule, s, ranPid)
  {
    var queue := s.pq + s.rr;
    var procs, log := s.procs, s.log;
    for k := 0 to |queue|
      invariant (procs, log) == AgeUpTo(rule, s.procs, s.log, queue, ranPid, s.time, k)
    {
      var i := queue[k];
      var p := procs[i];
      ghost var aged := AgeOne(rule, p, ranPid, s.time);
      ghost var log0 := log;
      if !p.isCompleted && p.pid != ranPid {
        p := p.(totalWaitTime := p.totalWaitTime + 1, waitSinceBoost := p.waitSinceBoost + 1);
        if p.waitSinceBoost >= AgingThreshold {
          match rule {
            case LowerIsHigher =>
              if p.currentPriority > 1 {
                p := p.(currentPriority := p.currentPriority - 1);
                log := log + [PriorityBoosted(s.time, p.pid, p.currentPriority)];
                p := p.(waitSinceBoost := 0);
              }
            case HigherIsHigher =>
              p := p.(currentPriority := p.currentPriority + 1);
              log := log + [PriorityBoosted(s.time, p.pid, p.currentPriority)];
              p := p.(waitSinceBoost := 0);
          }
        }
      }
      assert p == aged.0 && log == log0 + aged.1;
      procs := procs[i := p];
    }
    t := s.(procs := procs, log := log);
  }

  /** Step 4: a change of running process resets its quantum and may rotate the ring. */
  method PreemptStep(s: Sim, c: nat) returns (t: Sim)
    requires WellFormed(s) && c < |s.procs|
    ensures t == Preempt(s, c)
  {
    var p, rr := s.procs[c], s.rr;
    if s.lastRunPid != p.pid {
      p := p.(quantumUsed := 0);
      if s.lastRunPid != -1 && PidIn(s.procs, rr, s.lastRunPid) {
        rr := Rotate(rr);
      }
    }
    t := s.(procs := s.procs[c := p], rr := rr);
  }

  /** Step 5: run process `c` for one tick. */
  method ExecuteStep(s: Sim, c: nat) returns (t: Sim)
    requires WellFormed(s) && c < |s.procs|
    ensures t == Execute(s, c)
  {
    var p := s.procs[c];
    if p.startTime == -1 {
      p := p.(startTime := s.time, responseTime := s.time - p.arrivalTime);
    }
    var gantt := s.gantt + [Slot(p.pid, s.time)];
    p := p.(remainingTime := p.remainingTime - 1);
    t := s.(procs := s.procs[c := p], gantt := gantt, time := s.time + 1, lastRunPid := p.pid);
  }

  /** Step 6: quantum accounting for a ring process. */
  method QuantumStep(s: Sim, c: nat) returns (t: Sim)
    requires WellFormed(s) && c < |s.procs|
    ensures t == Quantum(s, c)
  {
    var p, rr, lastRun := s.procs[c], s.rr, s.lastRunPid;
    if p.isInRrQueue {
      p := p.(quantumUsed := p.quantumUsed + 1);
      if p.quantumUsed >= TimeQuantum {
        rr := Rotate(rr);
        p := p.(quantumUsed := 0);
        lastRun := -1;
      }
    }
    t := s.(procs := s.procs[c := p], rr := rr, lastRunPid := lastRun);
  }

  /** Step 7: completion detection. */
  method CompleteStep(s: Sim, c: nat) returns (t: Sim)
    requires WellFormed(s) && c < |s.procs|
    ensures t == Complete(s, c)
  {
    var p := s.procs[c];
    t := s;
    if p.remainingTime == 0 {
      var q := p.(isCompleted := true, completionTime := s.time);
      t := t.(procs := s.procs[c := q], completed := s.completed + 1, lastRunPid := -1);
      if p.isInRrQueue {
        if s.rr != [] && s.procs[s.rr[0]].pid == p.pid {
          t := t.(rr := s.rr[1..]);
        }
      } else {
        if s.pq != [] && s.procs[s.pq[0]].pid == p.pid {
          t := t.(pq := s.pq[1..]);
        }
      }
    }
  }

  /** Steps 1 to 3 before the choice: admission, migration and the sort. */
  method PrepareStep(rule: Rule, s: Sim) returns (m: Sim)
    requires WellFormed(s)
    ensures m == Prepare(rule, s)
  {
    var a := AdmitArrivals(s);
    m := MigrateLongWaiters(a);
    if m.pq != [] {
      m := m.(pq := SortBy<nat>(m.pq, QueueKey(rule, m.procs)));
    }
  }

  /** Steps 4 to 8 for the chosen process `c`. */
  method DispatchStep(rule: Rule, m: Sim, c: nat) returns (t: Sim)
    requires WellFormed(m) && c < |m.procs|
    ensures t == Dispatch(rule, m, c)
  {
    var ranPid := m.procs[c].pid;
    var s4 := PreemptStep(m, c);
    var s5 := ExecuteStep(s4, c);
    var s6 := QuantumStep(s5, c);
    var s7 := CompleteStep(s6, c);
    t := AgeWaiting(rule, s7, ranPid);
  }

  /** One iteration of the tick loop. */
  method TickStep(rule: Rule, s: Sim) returns (t: Sim)
    requires WellFormed(s)
    ensures t == Tick(rule, s)
  {
    var m := PrepareStep(rule, s);
    TickFacts.TickCases(rule, s);
    // Step 3: select the process to run.
    var c: nat;
    if m.pq != [] {
      c := m.pq[0];
    } else if m.rr != [] {
      c := m.rr[0];
    } else {
      t := m.(time := m.time + 1);
      return;
    }
    t := DispatchStep(rule, m, c);
  }

  /**
   * The scheduler: sort the processes by arrival (`Initial`), run the tick
   * loop while some process has not completed (for at most `fuel` ticks),
   * then compute the report.
   */
  method HybridScheduler(processes: seq<Process>, rule: Rule, fuel: nat)
    returns (final: Sim, rows: seq<Metrics.MetricRow>, totalTat: int, totalWt: int, totalRt: int)
    ensures final == Run(rule, Initial(processes), fuel)
    ensures rows == Metrics.Rows(SortBy(final.procs, Metrics.PidKey))
    ensures totalTat == Metrics.SumTurnaround(rows)
    ensures totalWt == Metrics.SumWaiting(rows)
    ensures totalRt == Metrics.SumResponse(rows)
  {
    final := RunTicks(rule, Initial(processes), fuel);
    rows, totalTat, totalWt, totalRt := Metrics.PrintResults(final.procs);
  }

  /** The tick loop `while completed < n`, for at most `fuel` iterations. */
  method RunTicks(rule: Rule, s0: Sim, fuel: nat) returns (s: Sim)
    requires WellFormed(s0)
    ensures s == Run(rule, s0, fuel)
  {
    s := s0;
    var left := fuel;
    while s.completed < |s.procs| && left > 0
      invariant WellFormed(s)
      invariant Run(rule, s, left) == Run(rule, s0, fuel)
      decreases left
    {
      s, left := Advance(rule, s, left);
    }
  }

  /** One tick, seen from the loop: it takes the run one step closer to its end. */
  method Advance(rule: Rule, s: Sim, left: nat) returns (t: Sim, left': nat)
    requires WellFormed(s) && s.completed < |s.procs| && left > 0
    ensures WellFormed(t) && left' == left - 1
    ensures Run(rule, t, left') == Run(rule, s, left)
  {
    t := TickStep(rule, s);
    left' := left - 1;
    RunStep(rule, s, t, left, left');
  }
}
