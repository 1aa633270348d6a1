/**
 * The hybrid scheduler's tick, as functions on the simulation state.
 *
 * Each loop iteration of the scheduler is one tick and runs these steps in
 * order: admit arrivals, migrate long waiters from the priority queue to the
 * round-robin ring, select a process (priority queue first, sorted on the
 * rule's key; else the ring's head; else idle), reset the quantum and rotate
 * the ring on preemption, run the process for one tick, account the quantum,
 * detect completion, and age every waiting process. Each step is one function
 * below; `Tick` composes them and `Run` iterates `Tick`.
 *
 * Process objects are shared between the process list and the two queues;
 * here every record lives once in `procs` and the queues hold its index.
 */
module Scheduler {
  import opened Processes
  import opened Sorting

  datatype Option<T> = None | Some(value: T)

  /** One Gantt-chart entry: process `pid` ran during tick `time`. */
  datatype Slot = Slot(pid: int, time: int)

  /** The messages the scheduler prints while it runs. */
  datatype Event =
    | MovedToRr(time: int, pid: int)
    | PriorityBoosted(time: int, pid: int, priority: int)

  /** The local state of the scheduler's loop. */
  datatype Sim = Sim(
    procs: seq<Process>,  // the process list, sorted by arrival
    pq: seq<nat>,         // the priority queue
    rr: seq<nat>,         // the round-robin ring, head first
    time: int,            // the current tick
    completed: int,       // how many processes have completed
    nextIdx: nat,         // the first process not admitted yet
    lastRunPid: int,      // pid that ran last, -1 for none
    gantt: seq<Slot>,
    log: seq<Event>)

  predicate InRange(q: seq<nat>, n: int) {
    forall k :: 0 <= k < |q| ==> q[k] < n
  }

  predicate WellFormed(s: Sim) {
    s.nextIdx <= |s.procs| && InRange(s.pq, |s.procs|) && InRange(s.rr, |s.procs|)
  }

  /** The indices `lo, lo + 1, ..., hi - 1`. */
  function Range(lo: nat, hi: nat): (r: seq<nat>)
    ensures forall i :: i in r <==> lo <= i < hi
    ensures |r| == if lo <= hi then hi - lo else 0
    decreases hi - lo
  {
    if lo >= hi then [] else [lo] + Range(lo + 1, hi)
  }

  // ---------------------------------------------------------------- step 1

  /** The next process in arrival order has arrived. */
  predicate ArrivalReady(s: Sim)
    requires s.nextIdx <= |s.procs|
  {
    s.nextIdx < |s.procs| && s.procs[s.nextIdx].arrivalTime <= s.time
  }

  /**
   * Admission appends the arrived processes to the priority queue in list
   * order and stops at the first process that has not arrived yet.
   */
  function Admit(s: Sim): (t: Sim)
    requires WellFormed(s)
    ensures WellFormed(t)
    ensures s.nextIdx <= t.nextIdx
    ensures t == s.(pq := s.pq + Range(s.nextIdx, t.nextIdx), nextIdx := t.nextIdx)
    ensures forall i :: s.nextIdx <= i < t.nextIdx ==> s.procs[i].arrivalTime <= s.time
    ensures !ArrivalReady(t)
    decreases |s.procs| - s.nextIdx
  {
    if ArrivalReady(s) then
      var t := Admit(s.(pq := s.pq + [s.nextIdx], nextIdx := s.nextIdx + 1));
      assert s.pq + [s.nextIdx] + Range(s.nextIdx + 1, t.nextIdx)
          == s.pq + Range(s.nextIdx, t.nextIdx);
      t
    else
      s
  }

  // ---------------------------------------------------------------- step 2

  /** A priority-queue member that must move to the ring. */
  predicate LongWait(p: Process) {
    p.totalWaitTime >= RrWaitThreshold && !p.isInRrQueue
  }

  /** The loop variables of the migration pass over the priority queue. */
  datatype Sweep = Sweep(procs: seq<Process>, keep: seq<nat>, rr: seq<nat>, log: seq<Event>)

  /** The migration pass visits queue entry `i`. */
  function Visit(s: Sim, w: Sweep, i: nat): (u: Sweep)
    requires i < |w.procs|
    ensures |u.procs| == |w.procs|
  {
    var p := w.procs[i];
    if LongWait(p) then
      Sweep(w.procs[i := p.(isInRrQueue := true)], w.keep, w.rr + [i],
            w.log + [MovedToRr(s.time, p.pid)])
    else
      w.(keep := w.keep + [i])
  }

  /** The migration pass after it has visited the first `k` queue entries. */
  function SweepUpTo(s: Sim, k: nat): (w: Sweep)
    requires WellFormed(s) && k <= |s.pq|
    ensures |w.procs| == |s.procs|
    ensures InRange(w.keep, |s.procs|) && InRange(w.rr, |s.procs|)
  {
    if k == 0 then Sweep(s.procs, [], s.rr, s.log)
    else Visit(s, SweepUpTo(s, k - 1), s.pq[k - 1])
  }

  function Migrate(s: Sim): (t: Sim)
    requires WellFormed(s)
    ensures WellFormed(t) && |t.procs| == |s.procs|
  {
    var w := SweepUpTo(s, |s.pq|);
    s.(procs := w.procs, pq := w.keep, rr := w.rr, log := w.log)
  }

  // ---------------------------------------------------------------- step 3

  /** The sort key of a priority-queue member under the rule. */
  function PriorityKey(rule: Rule, p: Process): Key {
    match rule
    case LowerIsHigher => (p.currentPriority, p.remainingTime)
    case HigherIsHigher => (-p.currentPriority, p.remainingTime)
  }

  /** The sort key of queue entry `i` (queue entries are always valid indices). */
  function QueueKey(rule: Rule, procs: seq<Process>): nat -> Key {
    (i: nat) => if i < |procs| then PriorityKey(rule, procs[i]) else (0, 0)
  }

  /** Admission, migration and, when the priority queue is not empty, its sort. */
  function Prepare(rule: Rule, s: Sim): (m: Sim)
    requires WellFormed(s)
    ensures WellFormed(m) && |m.procs| == |s.procs|
  {
    var m := Migrate(Admit(s));
    if m.pq == [] then m
    else
      var q := SortBy<nat>(m.pq, QueueKey(rule, m.procs));
      forall k | 0 <= k < |q|
        ensures q[k] < |m.procs|
      {
        assert q[k] in multiset(m.pq);
      }
      m.(pq := q)
  }

  /** The process to run: the priority queue's head, else the ring's head. */
  function Chosen(m: Sim): (r: Option<nat>)
    ensures r == None <==> m.pq == [] && m.rr == []
    ensures r.Some? ==> r.value in m.pq || r.value in m.rr
  {
    if m.pq != [] then Some(m.pq[0])
    else if m.rr != [] then Some(m.rr[0])
    else None
  }

  // ---------------------------------------------------------------- step 4

  /** `deque.rotate(-1)`: the head moves to the tail; an empty deque stays empty. */
  function Rotate(q: seq<nat>): (r: seq<nat>)
    ensures multiset(r) == multiset(q) && |r| == |q|
  {
    if q == [] then []
    else
      assert q == [q[0]] + q[1..];
      q[1..] + [q[0]]
  }

  /** Some entry of queue `q` belongs to a process with this pid. */
  predicate PidIn(procs: seq<Process>, q: seq<nat>, pid: int)
    requires InRange(q, |procs|)
  {
    exists k :: 0 <= k < |q| && procs[q[k]].pid == pid
  }

  function Preempt(s: Sim, c: nat): (t: Sim)
    requires WellFormed(s) && c < |s.procs|
    ensures WellFormed(t) && |t.procs| == |s.procs|
  {
    var p := s.procs[c];
    if s.lastRunPid == p.pid then s
    else
      var t := s.(procs := s.procs[c := p.(quantumUsed := 0)]);
      if s.lastRunPid != -1 && PidIn(s.procs, s.rr, s.lastRunPid) then t.(rr := Rotate(s.rr))
      else t
  }

  // ---------------------------------------------------------------- step 5

  function Execute(s: Sim, c: nat): (t: Sim)
    requires WellFormed(s) && c < |s.procs|
    ensures WellFormed(t) && |t.procs| == |s.procs|
  {
    var p := s.procs[c];
    var started :=
      if p.startTime == -1 then p.(startTime := s.time, responseTime := s.time - p.arrivalTime)
      else p;
    s.(procs := s.procs[c := started.(remainingTime := started.remainingTime - 1)],
       gantt := s.gantt + [Slot(p.pid, s.time)],
       time := s.time + 1,
       lastRunPid := p.pid)
  }

  // ---------------------------------------------------------------- step 6

  function Quantum(s: Sim, c: nat): (t: Sim)
    requires WellFormed(s) && c < |s.procs|
    ensures WellFormed(t) && |t.procs| == |s.procs|
  {
    var p := s.procs[c];
    if !p.isInRrQueue then s
    else if p.quantumUsed + 1 >= TimeQuantum then
      s.(procs := s.procs[c := p.(quantumUsed := 0)], rr := Rotate(s.rr), lastRunPid := -1)
    else
      s.(procs := s.procs[c := p.(quantumUsed := p.quantumUsed + 1)])
  }

  // ---------------------------------------------------------------- step 7

  /**
   * A process whose remaining time is exactly 0 completes; it leaves its
   * queue only if it is that queue's head.
   */
  function Complete(s: Sim, c: nat): (t: Sim)
    requires WellFormed(s) && c < |s.procs|
    ensures WellFormed(t) && |t.procs| == |s.procs|
  {
    var p := s.procs[c];
    if p.remainingTime != 0 then s
    else
      var t := s.(procs := s.procs[c := p.(isCompleted := true, completionTime := s.time)],
                  completed := s.completed + 1,
                  lastRunPid := -1);
      if p.isInRrQueue then
        if s.rr != [] && s.procs[s.rr[0]].pid == p.pid then t.(rr := s.rr[1..]) else t
      else
        if s.pq != [] && s.procs[s.pq[0]].pid == p.pid then t.(pq := s.pq[1..]) else t
  }

  // ---------------------------------------------------------------- step 8

  /** A queued process that is aged this tick. */
  predicate Waiting(p: Process, ranPid: int) {
    !p.isCompleted && p.pid != ranPid
  }

  /** The process boosts (changes priority) when it is aged from `p`. */
  predicate Boosts(rule: Rule, p: Process, ranPid: int) {
    Waiting(p, ranPid) && p.waitSinceBoost + 1 >= AgingThreshold
    && (rule == HigherIsHigher || p.currentPriority > 1)
  }

  /** Aging of one queue member, with the message it prints. */
  function AgeOne(rule: Rule, p: Process, ranPid: int, time: int): (r: (Process, seq<Event>))
    ensures SameIdentity(r.0, p) && r.0.isCompleted == p.isCompleted && r.0.isInRrQueue == p.isInRrQueue
    ensures |r.1| <= 1 && (r.1 != [] <==> Boosts(rule, p, ranPid))
  {
    if !Waiting(p, ranPid) then (p, [])
    else
      var q := p.(totalWaitTime := p.totalWaitTime + 1, waitSinceBoost := p.waitSinceBoost + 1);
      if q.waitSinceBoost < AgingThreshold then (q, [])
      else
        match rule
        case LowerIsHigher =>
          if q.currentPriority > 1 then
            var b := q.(currentPriority := q.currentPriority - 1, waitSinceBoost := 0);
            (b, [PriorityBoosted(time, p.pid, b.currentPriority)])
          else
            (q, [])
        case HigherIsHigher =>
          var b := q.(currentPriority := q.currentPriority + 1, waitSinceBoost := 0);
          (b, [PriorityBoosted(time, p.pid, b.currentPriority)])
  }

  /** The aging pass after it has visited the first `k` entries of `queue`. */
  function AgeUpTo(rule: Rule, procs: seq<Process>, log: seq<Event>, queue: seq<nat>,
                   ranPid: int, time: int, k: nat): (r: (seq<Process>, seq<Event>))
    requires InRange(queue, |procs|) && k <= |queue|
    ensures |r.0| == |procs|
  {
    if k == 0 then (procs, log)
    else
      var r := AgeUpTo(rule, procs, log, queue, ranPid, time, k - 1);
      var i := queue[k - 1];
      var a := AgeOne(rule, r.0[i], ranPid, time);
      (r.0[i := a.0], r.1 + a.1)
  }

  /** Aging of every member of both queues, except the process `ranPid` that ran. */
  function Age(rule: Rule, s: Sim, ranPid: int): (t: Sim)
    requires WellFormed(s)
    ensures WellFormed(t) && |t.procs| == |s.procs|
  {
    var queue := s.pq + s.rr;
    var r := AgeUpTo(rule, s.procs, s.log, queue, ranPid, s.time, |queue|);
    s.(procs := r.0, log := r.1)
  }

  // ---------------------------------------------------------------- the tick

  /** Steps 4 to 8 for the chosen process `c`. */
  function Dispatch(rule: Rule, m: Sim, c: nat): (t: Sim)
    requires WellFormed(m) && c < |m.procs|
    ensures WellFormed(t) && |t.procs| == |m.procs|
  {
    Age(rule, Complete(Quantum(Execute(Preempt(m, c), c), c), c), m.procs[c].pid)
  }

  function Tick(rule: Rule, s: Sim): (t: Sim)
    requires WellFormed(s)
    ensures WellFormed(t) && |t.procs| == |s.procs|
  {
    var m := Prepare(rule, s);
    match Chosen(m)
    case None => m.(time := m.time + 1)
    case Some(c) => Dispatch(rule, m, c)
  }

  /** Processes are admitted in the order of a stable sort on arrival time. */
  function ArrivalKey(p: Process): Key {
    (p.arrivalTime, 0)
  }

  /** The state before the first tick. */
  function Initial(processes: seq<Process>): (s: Sim)
    ensures WellFormed(s) && |s.procs| == |processes|
    ensures multiset(s.procs) == multiset(processes)
  {
    Sim(SortBy(processes, ArrivalKey), [], [], 0, 0, 0, -1, [], [])
  }

  /** The loop `while completed < n`, cut off after `fuel` ticks. */
  function Run(rule: Rule, s: Sim, fuel: nat): (t: Sim)
    requires WellFormed(s)
    ensures WellFormed(t) && |t.procs| == |s.procs|
    decreases fuel
  {
    if s.completed >= |s.procs| || fuel == 0 then s
    else Run(rule, Tick(rule, s), fuel - 1)
  }

  /** One iteration of the loop, with the remaining fuel named explicitly. */
  lemma RunStep(rule: Rule, s: Sim, t: Sim, fuel: nat, fuel': nat)
    requires WellFormed(s) && s.completed < |s.procs| && fuel == fuel' + 1
    requires t == Tick(rule, s)
    ensures Run(rule, s, fuel) == Run(rule, t, fuel')
  {
  }
}
