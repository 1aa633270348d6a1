/**
 * The simulated process record and the scheduler's tuning constants.
 */
module Processes {

  /** A waiting process whose boost counter reaches this value is aged. */
  const AgingThreshold: int := 8
  /** A priority-queue member whose total wait reaches this value moves to the ring. */
  const RrWaitThreshold: int := 10
  /** Ticks a ring process may run in a row before the ring rotates. */
  const TimeQuantum: int := 4

  /**
   * The priority rule chosen by the user: `LowerIsHigher` is rule '1'
   * (a lower number means a higher priority); every other choice behaves
   * as `HigherIsHigher`.
   */
  datatype Rule = LowerIsHigher | HigherIsHigher

  /**
   * One simulated process. `startTime` and `responseTime` hold -1 until the
   * first run; `completionTime` holds 0 until completion.
   */
  datatype Process = Process(
    pid: int,
    arrivalTime: int,
    burstTime: int,
    originalPriority: int,
    currentPriority: int,
    remainingTime: int,
    startTime: int,
    completionTime: int,
    isCompleted: bool,
    totalWaitTime: int,
    waitSinceBoost: int,
    responseTime: int,
    isInRrQueue: bool,
    quantumUsed: int)

  /** The state of a process that has not been touched by the scheduler yet. */
  predicate Pristine(p: Process) {
    p.currentPriority == p.originalPriority
    && p.remainingTime == p.burstTime
    && p.startTime == -1
    && p.completionTime == 0
    && !p.isCompleted
    && p.totalWaitTime == 0
    && p.waitSinceBoost == 0
    && p.responseTime == -1
    && !p.isInRrQueue
    && p.quantumUsed == 0
  }

  /** The fields the scheduler never writes agree in `p` and `q`. */
  predicate SameIdentity(p: Process, q: Process) {
    p.pid == q.pid && p.arrivalTime == q.arrivalTime
    && p.burstTime == q.burstTime && p.originalPriority == q.originalPriority
  }

  /** The pid, as a function for `DistinctBy`. */
  function PidOf(p: Process): int {
    p.pid
  }

  function NewProcess(pid: int, arrivalTime: int, burstTime: int, priority: int): (p: Process)
    ensures Pristine(p)
    ensures p.pid == pid && p.arrivalTime == arrivalTime
    ensures p.burstTime == burstTime && p.originalPriority == priority
  {
    Process(pid, arrivalTime, burstTime, priority,
            priority, burstTime, -1, 0, false,
            0, 0, -1, false, 0)
  }
}
