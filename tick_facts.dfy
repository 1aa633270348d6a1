/**
 * What each step of the tick does, stated exactly, and what one whole tick
 * does: the clock, the Gantt chart, the selection rule, idle ticks, the
 * executed process's counters, migration and aging.
 */
module TickFacts {
  import opened Processes
  import opened Sorting
  import opened Scheduler

  /** No index occurs twice in the queue. */
  predicate NoDup(q: seq<nat>) {
    forall a, b :: 0 <= a < b < |q| ==> q[a] != q[b]
  }

  // ------------------------------------------------------------ admission

  /** Admitting the next arrived process first does not change what admission ends with. */
  lemma AdmitNext(s: Sim)
    requires WellFormed(s) && ArrivalReady(s)
    ensures Admit(s) == Admit(s.(pq := s.pq + [s.nextIdx], nextIdx := s.nextIdx + 1))
  {
  }

  // ------------------------------------------------------------ migration

  /** The priority-queue members that stay, in queue order. */
  function Stayers(procs: seq<Process>, q: seq<nat>): (r: seq<nat>)
    requires InRange(q, |procs|)
    ensures InRange(r, |procs|)
  {
    if q == [] then []
    else
      var i := q[|q| - 1];
      var front := q[..|q| - 1];
      assert q == front + [i];
      Stayers(procs, front) + (if LongWait(procs[i]) then [] else [i])
  }

  /** The priority-queue members that move to the ring, in queue order. */
  function Movers(procs: seq<Process>, q: seq<nat>): (r: seq<nat>)
    requires InRange(q, |procs|)
    ensures InRange(r, |procs|)
  {
    if q == [] then []
    else
      var i := q[|q| - 1];
      var front := q[..|q| - 1];
      assert q == front + [i];
      Movers(procs, front) + (if LongWait(procs[i]) then [i] else [])
  }

  /**
   * The stayers are exactly the queue members that are not long waiters and
   * the movers exactly those that are; neither repeats an entry unless the
   * queue does.
   */
  lemma SplitMembers(procs: seq<Process>, q: seq<nat>)
    requires InRange(q, |procs|)
    ensures forall i :: i in Stayers(procs, q) <==> i in q && i < |procs| && !LongWait(procs[i])
    ensures forall i :: i in Movers(procs, q) <==> i in q && i < |procs| && LongWait(procs[i])
    ensures NoDup(q) ==> NoDup(Stayers(procs, q)) && NoDup(Movers(procs, q))
  {
    StayersMembers(procs, q);
    MoversMembers(procs, q);
  }

  lemma {:induction false} StayersMembers(procs: seq<Process>, q: seq<nat>)
    requires InRange(q, |procs|)
    ensures forall i :: i in Stayers(procs, q) <==> i in q && i < |procs| && !LongWait(procs[i])
    ensures NoDup(q) ==> NoDup(Stayers(procs, q))
  {
    if q != [] {
      var i := q[|q| - 1];
      var front := q[..|q| - 1];
      assert q == front + [i];
      StayersMembers(procs, front);
      if NoDup(q) {
        assert NoDup(front);
        assert i !in front;
      }
    }
  }

  lemma {:induction false} MoversMembers(procs: seq<Process>, q: seq<nat>)
    requires InRange(q, |procs|)
    ensures forall i :: i in Movers(procs, q) <==> i in q && i < |procs| && LongWait(procs[i])
    ensures NoDup(q) ==> NoDup(Movers(procs, q))
  {
    if q != [] {
      var i := q[|q| - 1];
      var front := q[..|q| - 1];
      assert q == front + [i];
      MoversMembers(procs, front);
      if NoDup(q) {
        assert NoDup(front);
        assert i !in front;
      }
    }
  }

  /** The messages of the migration pass for the processes `q` that move, in order. */
  function MoveEvents(time: int, procs: seq<Process>, q: seq<nat>): (r: seq<Event>)
    requires InRange(q, |procs|)
    ensures |r| == |q|
  {
    if q == [] then []
    else MoveEvents(time, procs, q[..|q| - 1]) + [MovedToRr(time, procs[q[|q| - 1]].pid)]
  }

  /** The process record after the migration pass, when the queue has no repeats. */
  function Migrated(procs: seq<Process>, q: seq<nat>, i: nat): Process
    requires i < |procs|
  {
    if i in q && LongWait(procs[i]) then procs[i].(isInRrQueue := true) else procs[i]
  }

  /**
   * The migration pass only moves entries from the priority queue to the
   * ring (as multisets nothing is lost or added), and it only ever sets the
   * ring flag of a process.
   */
  lemma SweepFrame(s: Sim, k: nat)
    requires WellFormed(s) && k <= |s.pq|
    ensures multiset(SweepUpTo(s, k).keep) + multiset(SweepUpTo(s, k).rr)
            == multiset(s.pq[..k]) + multiset(s.rr)
    ensures forall i :: 0 <= i < |s.procs| ==>
              SweepUpTo(s, k).procs[i] == s.procs[i].(isInRrQueue := SweepUpTo(s, k).procs[i].isInRrQueue)
    ensures forall i :: 0 <= i < |s.procs| && s.procs[i].isInRrQueue ==>
              SweepUpTo(s, k).procs[i].isInRrQueue
  {
    SweepMultiset(s, k);
    forall i | 0 <= i < |s.procs|
      ensures SweepUpTo(s, k).procs[i] == s.procs[i].(isInRrQueue := SweepUpTo(s, k).procs[i].isInRrQueue)
      ensures s.procs[i].isInRrQueue ==> SweepUpTo(s, k).procs[i].isInRrQueue
    {
      SweepFrameAt(s, k, i);
    }
  }

  lemma {:induction false} SweepMultiset(s: Sim, k: nat)
    requires WellFormed(s) && k <= |s.pq|
    ensures multiset(SweepUpTo(s, k).keep) + multiset(SweepUpTo(s, k).rr)
            == multiset(s.pq[..k]) + multiset(s.rr)
  {
    if k > 0 {
      SweepMultiset(s, k - 1);
      VisitMultiset(s, SweepUpTo(s, k - 1), s.pq, k);
    }
  }

  /** A visit appends the entry to exactly one of the two queues. */
  lemma VisitMultiset(s: Sim, w: Sweep, q: seq<nat>, k: nat)
    requires 0 < k <= |q| && q[k - 1] < |w.procs|
    requires multiset(w.keep) + multiset(w.rr) == multiset(q[..k - 1]) + multiset(s.rr)
    ensures var u := Visit(s, w, q[k - 1]);
      multiset(u.keep) + multiset(u.rr) == multiset(q[..k]) + multiset(s.rr)
  {
    var u := Visit(s, w, q[k - 1]);
    AppendToOne(w.keep, w.rr, u.keep, u.rr, q, k, s.rr);
  }

  lemma {:induction false} SweepFrameAt(s: Sim, k: nat, i: nat)
    requires WellFormed(s) && k <= |s.pq| && i < |s.procs|
    ensures SweepUpTo(s, k).procs[i] == s.procs[i].(isInRrQueue := SweepUpTo(s, k).procs[i].isInRrQueue)
    ensures s.procs[i].isInRrQueue ==> SweepUpTo(s, k).procs[i].isInRrQueue
  {
    if k > 0 {
      SweepFrameAt(s, k - 1, i);
    }
  }

  /**
   * Appending entry `k - 1` of `q` to one queue of a pair that matches the
   * first `k - 1` entries (with `d`) as a multiset makes it match the first `k`.
   */
  lemma AppendToOne(a: seq<nat>, b: seq<nat>, a': seq<nat>, b': seq<nat>, q: seq<nat>, k: nat, d: seq<nat>)
    requires 0 < k <= |q|
    requires multiset(a) + multiset(b) == multiset(q[..k - 1]) + multiset(d)
    requires (a' == a && b' == b + [q[k - 1]]) || (a' == a + [q[k - 1]] && b' == b)
    ensures multiset(a') + multiset(b') == multiset(q[..k]) + multiset(d)
  {
    var i := q[k - 1];
    assert q[..k] == q[..k - 1] + [i];
    assert multiset(q[..k]) == multiset(q[..k - 1]) + multiset{i};
    assert multiset(a') + multiset(b') == multiset(a) + multiset(b) + multiset{i} by {
      if a' == a {
        assert multiset(b') == multiset(b) + multiset{i};
      } else {
        assert multiset(a') == multiset(a) + multiset{i};
      }
    }
  }

  /** The entry at position `k` of a queue without repeats is not among the first `k`. */
  lemma NotBefore(q: seq<nat>, k: nat)
    requires NoDup(q) && k < |q|
    ensures q[k] !in q[..k]
  {
    forall a | 0 <= a < k
      ensures q[..k][a] != q[k]
    {
      assert q[..k][a] == q[a];
    }
  }

  /** After `k` entries, the pass has flagged exactly the long waiters among them. */
  lemma {:induction false} SweepAt(s: Sim, k: nat, j: nat)
    requires WellFormed(s) && NoDup(s.pq) && k <= |s.pq| && j < |s.procs|
    ensures SweepUpTo(s, k).procs[j] == Migrated(s.procs, s.pq[..k], j)
  {
    if k > 0 {
      SweepAt(s, k - 1, j);
      if j == s.pq[k - 1] {
        NotBefore(s.pq, k - 1);
      }
      VisitAt(s, SweepUpTo(s, k - 1), s.pq, k, j);
    }
  }

  /** A visit to entry `k - 1` of a queue without repeats extends `Migrated` by that entry. */
  lemma VisitAt(s: Sim, w: Sweep, q: seq<nat>, k: nat, j: nat)
    requires 0 < k <= |q| && q[k - 1] < |w.procs| == |s.procs| && j < |s.procs|
    requires w.procs[j] == Migrated(s.procs, q[..k - 1], j)
    requires j == q[k - 1] ==> j !in q[..k - 1]
    ensures Visit(s, w, q[k - 1]).procs[j] == Migrated(s.procs, q[..k], j)
  {
    assert q[..k] == q[..k - 1] + [q[k - 1]];
  }

  lemma SweepProcs(s: Sim, k: nat)
    requires WellFormed(s) && NoDup(s.pq) && k <= |s.pq|
    ensures forall j :: 0 <= j < |s.procs| ==>
              SweepUpTo(s, k).procs[j] == Migrated(s.procs, s.pq[..k], j)
  {
    forall j | 0 <= j < |s.procs|
      ensures SweepUpTo(s, k).procs[j] == Migrated(s.procs, s.pq[..k], j)
    {
      SweepAt(s, k, j);
    }
  }

  /**
   * After `k` entries, the pass has kept exactly the stayers and appended
   * exactly the movers to the ring, both in queue order.
   */
  lemma {:induction false} SweepSplit(s: Sim, k: nat)
    requires WellFormed(s) && NoDup(s.pq) && k <= |s.pq|
    ensures SweepUpTo(s, k).keep == Stayers(s.procs, s.pq[..k])
    ensures SweepUpTo(s, k).rr == s.rr + Movers(s.procs, s.pq[..k])
  {
    if k > 0 {
      SweepSplit(s, k - 1);
      SweepFirstVisit(s, k);
      VisitSplit(s, SweepUpTo(s, k - 1), s.pq, k);
    }
  }

  /** A visit to an unchanged process extends the stayers or the movers by that entry. */
  lemma VisitSplit(s: Sim, w: Sweep, q: seq<nat>, k: nat)
    requires 0 < k <= |q| && InRange(q, |s.procs|) && |w.procs| == |s.procs|
    requires w.procs[q[k - 1]] == s.procs[q[k - 1]]
    requires w.keep == Stayers(s.procs, q[..k - 1]) && w.rr == s.rr + Movers(s.procs, q[..k - 1])
    ensures Visit(s, w, q[k - 1]).keep == Stayers(s.procs, q[..k])
    ensures Visit(s, w, q[k - 1]).rr == s.rr + Movers(s.procs, q[..k])
  {
    var i, u := q[k - 1], Visit(s, w, q[k - 1]);
    SplitSnoc(s.procs, q, k);
    if LongWait(s.procs[i]) {
      assert Stayers(s.procs, q[..k]) == w.keep;
      assert s.rr + (Movers(s.procs, q[..k - 1]) + [i]) == w.rr + [i];
      assert u.keep == w.keep && u.rr == w.rr + [i];
    } else {
      assert Movers(s.procs, q[..k]) == Movers(s.procs, q[..k - 1]);
      assert u.keep == w.keep + [i] && u.rr == w.rr;
    }
  }

  /** One more entry extends the stayers or the movers by that entry. */
  lemma SplitSnoc(procs: seq<Process>, q: seq<nat>, k: nat)
    requires 0 < k <= |q| && InRange(q, |procs|)
    ensures var i := q[k - 1];
      Stayers(procs, q[..k]) == Stayers(procs, q[..k - 1]) + (if LongWait(procs[i]) then [] else [i])
      && Movers(procs, q[..k]) == Movers(procs, q[..k - 1]) + (if LongWait(procs[i]) then [i] else [])
  {
    var r := q[..k];
    assert r[..|r| - 1] == q[..k - 1];
    SplitLast(procs, r);
  }

  /** The stayers and the movers of a non-empty queue, by its last entry. */
  lemma SplitLast(procs: seq<Process>, r: seq<nat>)
    requires r != [] && InRange(r, |procs|)
    ensures var i := r[|r| - 1];
      Stayers(procs, r) == Stayers(procs, r[..|r| - 1]) + (if LongWait(procs[i]) then [] else [i])
      && Movers(procs, r) == Movers(procs, r[..|r| - 1]) + (if LongWait(procs[i]) then [i] else [])
  {
  }

  /** After `k` entries, the pass has logged one message per mover, in queue order. */
  lemma {:induction false} SweepLog(s: Sim, k: nat)
    requires WellFormed(s) && NoDup(s.pq) && k <= |s.pq|
    ensures SweepUpTo(s, k).log == s.log + MoveEvents(s.time, s.procs, Movers(s.procs, s.pq[..k]))
  {
    if k > 0 {
      SweepLog(s, k - 1);
      SweepFirstVisit(s, k);
      VisitLog(s, SweepUpTo(s, k - 1), s.pq, k);
    }
  }

  /** A visit to an unchanged process logs a message exactly when it moves the process. */
  lemma VisitLog(s: Sim, w: Sweep, q: seq<nat>, k: nat)
    requires 0 < k <= |q| && InRange(q, |s.procs|) && |w.procs| == |s.procs|
    requires w.procs[q[k - 1]] == s.procs[q[k - 1]]
    requires w.log == s.log + MoveEvents(s.time, s.procs, Movers(s.procs, q[..k - 1]))
    ensures Visit(s, w, q[k - 1]).log == s.log + MoveEvents(s.time, s.procs, Movers(s.procs, q[..k]))
  {
    var i := q[k - 1];
    SplitSnoc(s.procs, q, k);
    if LongWait(s.procs[i]) {
      var m := Movers(s.procs, q[..k - 1]);
      MoveEventsSnoc(s.time, s.procs, m, i);
      assert s.log + (MoveEvents(s.time, s.procs, m) + [MovedToRr(s.time, s.procs[i].pid)])
          == w.log + [MovedToRr(s.time, s.procs[i].pid)];
    } else {
      assert Movers(s.procs, q[..k]) == Movers(s.procs, q[..k - 1]);
    }
  }

  lemma MoveEventsSnoc(time: int, procs: seq<Process>, m: seq<nat>, i: nat)
    requires InRange(m, |procs|) && i < |procs|
    ensures MoveEvents(time, procs, m + [i]) == MoveEvents(time, procs, m) + [MovedToRr(time, procs[i].pid)]
  {
    assert (m + [i])[..|m|] == m;
  }

  /** The pass reaches each entry with its process still as it was. */
  lemma SweepFirstVisit(s: Sim, k: nat)
    requires WellFormed(s) && NoDup(s.pq) && 0 < k <= |s.pq|
    ensures SweepUpTo(s, k - 1).procs[s.pq[k - 1]] == s.procs[s.pq[k - 1]]
  {
    SweepAt(s, k - 1, s.pq[k - 1]);
    NotBefore(s.pq, k - 1);
  }

  /**
   * Migration moves exactly the long waiters of the priority queue to the
   * ring's tail and keeps the rest in place; both groups keep their queue
   * order, and the moved processes are flagged as ring members.
   */
  lemma MigrateExact(s: Sim)
    requires WellFormed(s) && NoDup(s.pq)
    ensures Migrate(s).pq == Stayers(s.procs, s.pq)
    ensures Migrate(s).rr == s.rr + Movers(s.procs, s.pq)
    ensures forall i :: 0 <= i < |s.procs| ==> Migrate(s).procs[i] == Migrated(s.procs, s.pq, i)
    ensures Migrate(s).time == s.time && Migrate(s).gantt == s.gantt
    ensures Migrate(s).nextIdx == s.nextIdx && Migrate(s).completed == s.completed
    ensures Migrate(s).lastRunPid == s.lastRunPid
    ensures Migrate(s).log == s.log + MoveEvents(s.time, s.procs, Movers(s.procs, s.pq))
  {
    SweepProcs(s, |s.pq|);
    SweepSplit(s, |s.pq|);
    SweepLog(s, |s.pq|);
    assert s.pq[..|s.pq|] == s.pq;
  }

  // ---------------------------------------------------------------- aging

  /**
   * The aging rule for one queued process: a process that completed or just
   * ran is left alone; any other waits one more tick, and when its
   * since-boost counter reaches the aging threshold its priority improves by
   * one (under rule '1' only while it is above 1) and the counter restarts,
   * with a message.
   */
  lemma AgeOneRule(rule: Rule, p: Process, ranPid: int, time: int)
    ensures var r := AgeOne(rule, p, ranPid, time);
      r.0 == p.(totalWaitTime := r.0.totalWaitTime, waitSinceBoost := r.0.waitSinceBoost,
                currentPriority := r.0.currentPriority)
      && (!Waiting(p, ranPid) ==> r == (p, []))
      && (Waiting(p, ranPid) ==> r.0.totalWaitTime == p.totalWaitTime + 1)
      && (Boosts(rule, p, ranPid) ==>
            r.0.waitSinceBoost == 0 && r.1 == [PriorityBoosted(time, p.pid, r.0.currentPriority)])
      && (Waiting(p, ranPid) && !Boosts(rule, p, ranPid) ==>
            r.0.waitSinceBoost == p.waitSinceBoost + 1 && r.1 == []
            && r.0.currentPriority == p.currentPriority)
      && (Boosts(rule, p, ranPid) && rule == LowerIsHigher ==>
            1 <= r.0.currentPriority == p.currentPriority - 1)
      && (Boosts(rule, p, ranPid) && rule == HigherIsHigher ==>
            r.0.currentPriority == p.currentPriority + 1)
  {
  }

  /** The aging pass changes nothing but the three aging fields of each process. */
  lemma {:induction false} AgeUpToFrame(rule: Rule, procs: seq<Process>, log: seq<Event>,
                                        queue: seq<nat>, ranPid: int, time: int, k: nat)
    requires InRange(queue, |procs|) && k <= |queue|
    ensures forall i :: 0 <= i < |procs| ==>
              AgeUpTo(rule, procs, log, queue, ranPid, time, k).0[i]
              == procs[i].(totalWaitTime := AgeUpTo(rule, procs, log, queue, ranPid, time, k).0[i].totalWaitTime,
                           waitSinceBoost := AgeUpTo(rule, procs, log, queue, ranPid, time, k).0[i].waitSinceBoost,
                           currentPriority := AgeUpTo(rule, procs, log, queue, ranPid, time, k).0[i].currentPriority)
  {
    if k > 0 {
      AgeUpToFrame(rule, procs, log, queue, ranPid, time, k - 1);
      var r := AgeUpTo(rule, procs, log, queue, ranPid, time, k - 1);
      AgeOneRule(rule, r.0[queue[k - 1]], ranPid, time);
    }
  }

  /** Aging changes nothing but the three aging fields of each process, and the message log. */
  lemma AgeFrame(rule: Rule, s: Sim, ranPid: int)
    requires WellFormed(s)
    ensures var t := Age(rule, s, ranPid);
      t == s.(procs := t.procs, log := t.log)
      && forall i :: 0 <= i < |s.procs| ==>
           t.procs[i] == s.procs[i].(totalWaitTime := t.procs[i].totalWaitTime,
                                     waitSinceBoost := t.procs[i].waitSinceBoost,
                                     currentPriority := t.procs[i].currentPriority)
  {
    var queue := s.pq + s.rr;
    AgeUpToFrame(rule, s.procs, s.log, queue, ranPid, s.time, |queue|);
  }

  /** The aging pass never touches a process that is not queued. */
  lemma {:induction false} AgeUpToOutside(rule: Rule, procs: seq<Process>, log: seq<Event>,
                                          queue: seq<nat>, ranPid: int, time: int, k: nat, i: nat)
    requires InRange(queue, |procs|) && k <= |queue| && i < |procs| && i !in queue[..k]
    ensures AgeUpTo(rule, procs, log, queue, ranPid, time, k).0[i] == procs[i]
  {
    if k > 0 {
      assert queue[..k] == queue[..k - 1] + [queue[k - 1]];
      AgeUpToOutside(rule, procs, log, queue, ranPid, time, k - 1, i);
    }
  }

  lemma {:induction false} AgeUpToExact(rule: Rule, procs: seq<Process>, log: seq<Event>,
                                        queue: seq<nat>, ranPid: int, time: int, k: nat)
    requires InRange(queue, |procs|) && k <= |queue| && NoDup(queue)
    ensures forall i :: 0 <= i < |procs| ==>
              AgeUpTo(rule, procs, log, queue, ranPid, time, k).0[i]
              == if i in queue[..k] then AgeOne(rule, procs[i], ranPid, time).0 else procs[i]
  {
    if k > 0 {
      AgeUpToExact(rule, procs, log, queue, ranPid, time, k - 1);
      var j := queue[k - 1];
      assert queue[..k] == queue[..k - 1] + [j];
      assert j !in queue[..k - 1] by {
        forall a | 0 <= a < k - 1
          ensures queue[a] != j
        {
        }
      }
    }
  }

  /**
   * Aging applies `AgeOne` once to every queued process (so the running and
   * the completed ones are left as they are, and every other one gets one
   * more tick of waiting) and leaves every other process unchanged.
   */
  lemma AgeExact(rule: Rule, s: Sim, ranPid: int)
    requires WellFormed(s) && NoDup(s.pq + s.rr)
    ensures forall i :: 0 <= i < |s.procs| ==>
              Age(rule, s, ranPid).procs[i]
              == if i in s.pq + s.rr then AgeOne(rule, s.procs[i], ranPid, s.time).0 else s.procs[i]
  {
    var queue := s.pq + s.rr;
    AgeUpToExact(rule, s.procs, s.log, queue, ranPid, s.time, |queue|);
    assert queue[..|queue|] == queue;
  }

  /** A priority that never drops below 1 unless it started there. */
  predicate AboveFloor(p: Process) {
    p.currentPriority >= 1 || p.currentPriority == p.originalPriority
  }

  lemma {:induction false} AgeUpToFloor(procs: seq<Process>, log: seq<Event>,
                                        queue: seq<nat>, ranPid: int, time: int, k: nat)
    requires InRange(queue, |procs|) && k <= |queue|
    requires forall i :: 0 <= i < |procs| ==> AboveFloor(procs[i])
    ensures forall i :: 0 <= i < |procs| ==>
              AboveFloor(AgeUpTo(LowerIsHigher, procs, log, queue, ranPid, time, k).0[i])
  {
    if k > 0 {
      AgeUpToFloor(procs, log, queue, ranPid, time, k - 1);
      var r := AgeUpTo(LowerIsHigher, procs, log, queue, ranPid, time, k - 1);
      AgeOneRule(LowerIsHigher, r.0[queue[k - 1]], ranPid, time);
    }
  }

  // ------------------------------------------------------------ selection

  /** Admission and migration together, before the sort. */
  function Gathered(s: Sim): (m: Sim)
    requires WellFormed(s)
    ensures WellFormed(m) && |m.procs| == |s.procs|
  {
    Migrate(Admit(s))
  }

  /** The sort keeps the priority queue's members; the ring is as migration left it. */
  lemma PrepareQueues(rule: Rule, s: Sim)
    requires WellFormed(s)
    ensures multiset(Prepare(rule, s).pq) == multiset(Gathered(s).pq)
    ensures Prepare(rule, s).rr == Gathered(s).rr
  {
  }

  /** What the steps before dispatch change: the queues, admission and ring membership. */
  lemma PrepareFrame(rule: Rule, s: Sim)
    requires WellFormed(s)
    ensures var m := Prepare(rule, s);
      m.time == s.time && m.gantt == s.gantt && m.completed == s.completed
      && m.lastRunPid == s.lastRunPid && s.nextIdx <= m.nextIdx
      && (forall i :: 0 <= i < |s.procs| ==>
            m.procs[i] == s.procs[i].(isInRrQueue := m.procs[i].isInRrQueue))
      && (forall i :: 0 <= i < |s.procs| && s.procs[i].isInRrQueue ==> m.procs[i].isInRrQueue)
    ensures multiset(Prepare(rule, s).pq) == multiset(Gathered(s).pq)
    ensures Prepare(rule, s).rr == Gathered(s).rr && Prepare(rule, s).procs == Gathered(s).procs
  {
    var a := Admit(s);
    SweepFrame(a, |a.pq|);
    var w := SweepUpTo(a, |a.pq|);
    assert Gathered(s).procs == w.procs;
  }

  /**
   * The selection rule: when the priority queue is not empty the process
   * that runs is the first entry, in queue order, with the least sort key;
   * otherwise it is the ring's head; with both queues empty nothing runs.
   */
  lemma SelectionRule(rule: Rule, s: Sim)
    requires WellFormed(s)
    ensures var g := Gathered(s);
      (g.pq != [] ==> exists j :: IsFirstMin(g.pq, QueueKey(rule, g.procs), j)
                                 && Chosen(Prepare(rule, s)) == Some(g.pq[j]))
      && (g.pq == [] && g.rr != [] ==> Chosen(Prepare(rule, s)) == Some(g.rr[0]))
      && (g.pq == [] && g.rr == [] ==> Chosen(Prepare(rule, s)) == None)
  {
    var g := Gathered(s);
    if g.pq != [] {
      SortByHead(g.pq, QueueKey(rule, g.procs));
    }
  }

  /** The ties of the sort keep their queue order (Python's sort is stable). */
  lemma SelectionStable(rule: Rule, s: Sim, k: Key)
    requires WellFormed(s) && Gathered(s).pq != []
    ensures var g := Gathered(s);
      WithKey(Prepare(rule, s).pq, QueueKey(rule, g.procs), k) == WithKey(g.pq, QueueKey(rule, g.procs), k)
  {
    var g := Gathered(s);
    SortByStable(g.pq, QueueKey(rule, g.procs), k);
  }

  /**
   * A tick is idle exactly when both queues are empty and the next process
   * has not arrived; an idle tick only advances the clock.
   */
  lemma IdleTick(rule: Rule, s: Sim)
    requires WellFormed(s)
    ensures Chosen(Prepare(rule, s)) == None <==> (s.pq == [] && s.rr == [] && !ArrivalReady(s))
    ensures Chosen(Prepare(rule, s)) == None ==> Tick(rule, s) == s.(time := s.time + 1)
  {
    IdleWhen(rule, s);
    if s.pq == [] && s.rr == [] && !ArrivalReady(s) {
      IdleEffect(rule, s);
    }
  }

  lemma IdleWhen(rule: Rule, s: Sim)
    requires WellFormed(s)
    ensures Chosen(Prepare(rule, s)) == None <==> (s.pq == [] && s.rr == [] && !ArrivalReady(s))
  {
    var a, g := Admit(s), Gathered(s);
    SweepMultiset(a, |a.pq|);
    assert a.pq[..|a.pq|] == a.pq;
    PrepareQueues(rule, s);
    EmptyPairs(a.pq, a.rr, g.pq, g.rr);
    if ArrivalReady(s) {
      assert a.nextIdx > s.nextIdx;
    }
  }

  lemma IdleEffect(rule: Rule, s: Sim)
    requires WellFormed(s) && s.pq == [] && s.rr == [] && !ArrivalReady(s)
    ensures Tick(rule, s) == s.(time := s.time + 1)
  {
    assert Admit(s) == s;
    assert Gathered(s) == s;
    assert Prepare(rule, s) == s;
  }

  /** Two pairs of queues with the same members are both empty or both not. */
  lemma EmptyPairs(a: seq<nat>, b: seq<nat>, c: seq<nat>, d: seq<nat>)
    requires multiset(a) + multiset(b) == multiset(c) + multiset(d)
    ensures (a == [] && b == []) <==> (c == [] && d == [])
  {
    assert |multiset(a) + multiset(b)| == |a| + |b|;
    assert |multiset(c) + multiset(d)| == |c| + |d|;
  }

  // ------------------------------------------------------- steps 4 to 8

  /** Step 4 resets `c`'s quantum counter on a change of process and may rotate the ring. */
  lemma PreemptEffect(s: Sim, c: nat)
    requires WellFormed(s) && c < |s.procs|
    ensures var t := Preempt(s, c);
      t == s.(procs := s.procs[c := s.procs[c].(quantumUsed := t.procs[c].quantumUsed)], rr := t.rr)
      && multiset(t.rr) == multiset(s.rr) && (t.rr == s.rr || t.rr == Rotate(s.rr))
      && (s.lastRunPid != s.procs[c].pid ==> t.procs[c].quantumUsed == 0)
      && (s.lastRunPid == s.procs[c].pid ==> t == s)
    ensures Preempt(s, c).rr
            == if s.lastRunPid != s.procs[c].pid && s.lastRunPid != -1
                  && PidIn(s.procs, s.rr, s.lastRunPid)
               then Rotate(s.rr) else s.rr
  {
  }

  /** Step 5 runs `c` for one tick. */
  lemma ExecuteEffect(s: Sim, c: nat)
    requires WellFormed(s) && c < |s.procs|
    ensures var t := Execute(s, c); var p := s.procs[c];
      t == s.(procs := s.procs[c := t.procs[c]], gantt := s.gantt + [Slot(p.pid, s.time)],
              time := s.time + 1, lastRunPid := p.pid)
      && t.procs[c] == p.(remainingTime := p.remainingTime - 1, startTime := t.procs[c].startTime,
                          responseTime := t.procs[c].responseTime)
      && (p.startTime == -1 ==>
            t.procs[c].startTime == s.time && t.procs[c].responseTime == s.time - p.arrivalTime)
      && (p.startTime != -1 ==>
            t.procs[c].startTime == p.startTime && t.procs[c].responseTime == p.responseTime)
  {
  }

  /** Step 6 counts the quantum of a ring process and rotates the ring when it expires. */
  lemma QuantumEffect(s: Sim, c: nat)
    requires WellFormed(s) && c < |s.procs|
    ensures var t := Quantum(s, c); var p := s.procs[c];
      t == s.(procs := s.procs[c := p.(quantumUsed := t.procs[c].quantumUsed)], rr := t.rr,
              lastRunPid := t.lastRunPid)
      && multiset(t.rr) == multiset(s.rr) && (t.rr == s.rr || t.rr == Rotate(s.rr))
      && (!p.isInRrQueue ==> t == s)
      && (p.isInRrQueue && p.quantumUsed + 1 >= TimeQuantum ==>
            t.procs[c].quantumUsed == 0 && t.rr == Rotate(s.rr))
      && (p.isInRrQueue && p.quantumUsed + 1 < TimeQuantum ==>
            t.procs[c].quantumUsed == p.quantumUsed + 1 && t.rr == s.rr)
    ensures var t := Quantum(s, c); var p := s.procs[c];
      (p.isInRrQueue && p.quantumUsed + 1 >= TimeQuantum ==> t.lastRunPid == -1)
      && (!p.isInRrQueue || p.quantumUsed + 1 < TimeQuantum ==> t.lastRunPid == s.lastRunPid)
  {
  }

  /** Step 7 completes `c` when its remaining time is exactly 0, popping it if it heads its queue. */
  lemma CompleteEffect(s: Sim, c: nat)
    requires WellFormed(s) && c < |s.procs|
    ensures var t := Complete(s, c); var p := s.procs[c];
      (p.remainingTime != 0 ==> t == s)
      && (p.remainingTime == 0 ==>
            t == s.(procs := s.procs[c := p.(isCompleted := true, completionTime := s.time)],
                    completed := s.completed + 1, lastRunPid := -1, pq := t.pq, rr := t.rr)
            && (t.pq == s.pq || (s.pq != [] && t.pq == s.pq[1..]))
            && (t.rr == s.rr || (s.rr != [] && t.rr == s.rr[1..])))
    ensures var t := Complete(s, c); var p := s.procs[c];
      p.remainingTime == 0 && p.isInRrQueue ==>
        t.pq == s.pq
        && t.rr == if s.rr != [] && s.procs[s.rr[0]].pid == p.pid then s.rr[1..] else s.rr
    ensures var t := Complete(s, c); var p := s.procs[c];
      p.remainingTime == 0 && !p.isInRrQueue ==>
        t.rr == s.rr
        && t.pq == if s.pq != [] && s.procs[s.pq[0]].pid == p.pid then s.pq[1..] else s.pq
  {
  }

  /** Steps 4 to 7 for process `c`, before aging. */
  function Serve(m: Sim, c: nat): (t: Sim)
    requires WellFormed(m) && c < |m.procs|
    ensures WellFormed(t) && |t.procs| == |m.procs|
  {
    Complete(Quantum(Execute(Preempt(m, c), c), c), c)
  }

  /** Steps 4 to 7 advance the clock and add one Gantt entry for the process that runs. */
  lemma ServeClock(m: Sim, c: nat)
    requires WellFormed(m) && c < |m.procs|
    ensures Serve(m, c).time == m.time + 1
    ensures Serve(m, c).gantt == m.gantt + [Slot(m.procs[c].pid, m.time)]
  {
    var s4 := Preempt(m, c);
    PreemptEffect(m, c);
    var s5 := Execute(s4, c);
    ExecuteEffect(s4, c);
    var s6 := Quantum(s5, c);
    QuantumEffect(s5, c);
    CompleteEffect(s6, c);
  }

  /** Steps 4 to 7 keep identities and ring flags, and take one unit of remaining time from `c`. */
  lemma ServeFrameAt(m: Sim, c: nat, j: nat)
    requires WellFormed(m) && c < |m.procs| && j < |m.procs|
    ensures SameIdentity(Serve(m, c).procs[j], m.procs[j])
    ensures Serve(m, c).procs[j].isInRrQueue == m.procs[j].isInRrQueue
    ensures Serve(m, c).procs[j].remainingTime == m.procs[j].remainingTime - if j == c then 1 else 0
    ensures j != c ==> Serve(m, c).procs[j] == m.procs[j]
  {
    var s4 := Preempt(m, c);
    PreemptEffect(m, c);
    var s5 := Execute(s4, c);
    ExecuteEffect(s4, c);
    var s6 := Quantum(s5, c);
    QuantumEffect(s5, c);
    CompleteEffect(s6, c);
  }

  /** Steps 4 to 7 record the first start of `c` and complete it when its time runs out. */
  lemma ServeRun(m: Sim, c: nat)
    requires WellFormed(m) && c < |m.procs|
    ensures var t := Serve(m, c); var p := m.procs[c];
      (p.startTime == -1 ==> t.procs[c].startTime == m.time
                             && t.procs[c].responseTime == m.time - p.arrivalTime)
      && (p.startTime != -1 ==> t.procs[c].startTime == p.startTime
                                && t.procs[c].responseTime == p.responseTime)
      && (p.remainingTime == 1 ==> t.procs[c].isCompleted && t.procs[c].completionTime == m.time + 1
                                   && t.completed == m.completed + 1)
      && (p.remainingTime != 1 ==> t.procs[c].isCompleted == p.isCompleted
                                   && t.procs[c].completionTime == p.completionTime
                                   && t.completed == m.completed)
  {
    var s4 := Preempt(m, c);
    PreemptEffect(m, c);
    var s5 := Execute(s4, c);
    ExecuteEffect(s4, c);
    var s6 := Quantum(s5, c);
    QuantumEffect(s5, c);
    CompleteEffect(s6, c);
  }

  /** The ring as steps 4 to 6 leave it, before completion may pop its head. */
  function RingBeforeCompletion(m: Sim, c: nat): seq<nat>
    requires WellFormed(m) && c < |m.procs|
  {
    Quantum(Execute(Preempt(m, c), c), c).rr
  }

  /**
   * The queues after steps 4 to 7: the ring is rotated at most twice, and a
   * process that completes leaves its own queue only if that queue's head
   * carries its pid.
   */
  lemma ServeQueues(m: Sim, c: nat)
    requires WellFormed(m) && c < |m.procs|
    ensures var v := Serve(m, c); var p := m.procs[c]; var r6 := RingBeforeCompletion(m, c);
      v.nextIdx == m.nextIdx
      && multiset(r6) == multiset(m.rr)
      && (r6 == m.rr || r6 == Rotate(m.rr) || r6 == Rotate(Rotate(m.rr)))
      && (p.remainingTime != 1 ==> v.pq == m.pq && v.rr == r6 && v.completed == m.completed)
      && (p.remainingTime == 1 && !p.isInRrQueue ==>
            v.rr == r6
            && v.pq == if m.pq != [] && m.procs[m.pq[0]].pid == p.pid then m.pq[1..] else m.pq)
      && (p.remainingTime == 1 && p.isInRrQueue ==>
            v.pq == m.pq
            && v.rr == if r6 != [] && m.procs[r6[0]].pid == p.pid then r6[1..] else r6)
  {
    var s4 := Preempt(m, c);
    PreemptEffect(m, c);
    var s5 := Execute(s4, c);
    ExecuteEffect(s4, c);
    var s6 := Quantum(s5, c);
    QuantumEffect(s5, c);
    CompleteEffect(s6, c);
    assert s6.pq == m.pq && s6.procs[c].remainingTime == m.procs[c].remainingTime - 1;
    assert s6.procs[c].isInRrQueue == m.procs[c].isInRrQueue;
    assert forall j :: 0 <= j < |m.procs| ==> s6.procs[j].pid == m.procs[j].pid;
  }

  /** Steps 4 to 7 keep the quantum counter of `c` in range and leave its priority alone. */
  lemma ServeQuantum(m: Sim, c: nat)
    requires WellFormed(m) && c < |m.procs|
    ensures var q := Serve(m, c).procs[c]; var p := m.procs[c];
      q.currentPriority == p.currentPriority
      && (0 <= p.quantumUsed < TimeQuantum ==> 0 <= q.quantumUsed < TimeQuantum)
  {
    var s4 := Preempt(m, c);
    PreemptEffect(m, c);
    var s5 := Execute(s4, c);
    ExecuteEffect(s4, c);
    var s6 := Quantum(s5, c);
    QuantumEffect(s5, c);
    CompleteEffect(s6, c);
  }

  /** Dispatch is `Serve` followed by aging. */
  lemma DispatchIsServeThenAge(rule: Rule, m: Sim, c: nat)
    requires WellFormed(m) && c < |m.procs|
    ensures Dispatch(rule, m, c) == Age(rule, Serve(m, c), m.procs[c].pid)
  {
  }

  /** Aging changes nothing that steps 4 to 7 established except the aging fields. */
  lemma DispatchAt(rule: Rule, m: Sim, c: nat, j: nat)
    requires WellFormed(m) && c < |m.procs| && j < |m.procs|
    ensures var t := Dispatch(rule, m, c); var v := Serve(m, c);
      t == v.(procs := t.procs, log := t.log)
      && t.procs[j] == v.procs[j].(totalWaitTime := t.procs[j].totalWaitTime,
                                   waitSinceBoost := t.procs[j].waitSinceBoost,
                                   currentPriority := t.procs[j].currentPriority)
  {
    DispatchIsServeThenAge(rule, m, c);
    AgeFrame(rule, Serve(m, c), m.procs[c].pid);
  }

  // ---------------------------------------------------------------- a tick

  /** The steps before dispatch, as admission and migration followed by the sort. */
  lemma PrepareIsSort(rule: Rule, s: Sim)
    requires WellFormed(s)
    ensures Prepare(rule, s)
            == Gathered(s).(pq := SortBy<nat>(Gathered(s).pq, QueueKey(rule, Gathered(s).procs)))
  {
  }

  /** A tick is the steps before dispatch, then either an idle tick or dispatch. */
  lemma TickCases(rule: Rule, s: Sim)
    requires WellFormed(s)
    ensures var m := Prepare(rule, s);
      match Chosen(m)
      case None => Tick(rule, s) == m.(time := m.time + 1)
      case Some(c) => c < |m.procs| && Tick(rule, s) == Dispatch(rule, m, c)
  {
  }

  /**
   * Every tick advances the clock by one; a tick that runs process `c` adds
   * exactly one Gantt entry, for `c`'s pid at the tick's start time, and an
   * idle tick adds none.
   */
  lemma TickClock(rule: Rule, s: Sim)
    requires WellFormed(s)
    ensures Tick(rule, s).time == s.time + 1
    ensures match Chosen(Prepare(rule, s))
      case None => Tick(rule, s).gantt == s.gantt
      case Some(c) => c < |s.procs| && Tick(rule, s).gantt == s.gantt + [Slot(s.procs[c].pid, s.time)]
  {
    var m := Prepare(rule, s);
    PrepareFrame(rule, s);
    TickCases(rule, s);
    match Chosen(m) {
      case None =>
      case Some(c) =>
        ServeClock(m, c);
        DispatchAt(rule, m, c, c);
    }
  }

  lemma TickFrameAt(rule: Rule, s: Sim, i: nat)
    requires WellFormed(s) && i < |s.procs|
    ensures |Tick(rule, s).procs| == |s.procs|
    ensures SameIdentity(Tick(rule, s).procs[i], s.procs[i])
    ensures s.procs[i].isInRrQueue ==> Tick(rule, s).procs[i].isInRrQueue
    ensures Tick(rule, s).procs[i].remainingTime
              == s.procs[i].remainingTime - if Chosen(Prepare(rule, s)) == Some(i) then 1 else 0
  {
    var m := Prepare(rule, s);
    PrepareFrame(rule, s);
    TickCases(rule, s);
    match Chosen(m) {
      case None =>
      case Some(c) =>
        ServeFrameAt(m, c, i);
        DispatchAt(rule, m, c, i);
    }
  }

  /**
   * What one tick does to every process record: the fields fixed at
   * creation never change, ring membership is never withdrawn, and the
   * process that runs, and only it, loses one unit of remaining time.
   */
  lemma TickFrame(rule: Rule, s: Sim)
    requires WellFormed(s)
    ensures |Tick(rule, s).procs| == |s.procs|
    ensures forall i :: 0 <= i < |s.procs| ==> SameIdentity(Tick(rule, s).procs[i], s.procs[i])
    ensures forall i :: 0 <= i < |s.procs| && s.procs[i].isInRrQueue ==>
              Tick(rule, s).procs[i].isInRrQueue
    ensures forall i :: 0 <= i < |s.procs| ==>
              Tick(rule, s).procs[i].remainingTime
              == s.procs[i].remainingTime - if Chosen(Prepare(rule, s)) == Some(i) then 1 else 0
  {
    forall i | 0 <= i < |s.procs|
      ensures SameIdentity(Tick(rule, s).procs[i], s.procs[i])
      ensures s.procs[i].isInRrQueue ==> Tick(rule, s).procs[i].isInRrQueue
      ensures Tick(rule, s).procs[i].remainingTime
              == s.procs[i].remainingTime - if Chosen(Prepare(rule, s)) == Some(i) then 1 else 0
    {
      TickFrameAt(rule, s, i);
    }
  }

  /**
   * The first run of a process records its start time (the tick's start)
   * and its response time (start minus arrival); later runs keep both.
   */
  lemma TickStart(rule: Rule, s: Sim, c: nat)
    requires WellFormed(s) && Chosen(Prepare(rule, s)) == Some(c)
    ensures c < |s.procs|
    ensures s.procs[c].startTime == -1 ==>
              Tick(rule, s).procs[c].startTime == s.time
              && Tick(rule, s).procs[c].responseTime == s.time - s.procs[c].arrivalTime
    ensures s.procs[c].startTime != -1 ==>
              Tick(rule, s).procs[c].startTime == s.procs[c].startTime
              && Tick(rule, s).procs[c].responseTime == s.procs[c].responseTime
  {
    var m := Prepare(rule, s);
    PrepareFrame(rule, s);
    TickCases(rule, s);
    ServeRun(m, c);
    DispatchAt(rule, m, c, c);
  }

  /**
   * A run that brings the remaining time to exactly 0 completes the process:
   * its completion time is the time after the tick and the completed count
   * grows by one. Any other run completes nothing.
   */
  lemma TickCompletion(rule: Rule, s: Sim, c: nat)
    requires WellFormed(s) && Chosen(Prepare(rule, s)) == Some(c)
    ensures c < |s.procs|
    ensures s.procs[c].remainingTime == 1 ==>
              Tick(rule, s).procs[c].isCompleted
              && Tick(rule, s).procs[c].completionTime == s.time + 1
              && Tick(rule, s).completed == s.completed + 1
    ensures s.procs[c].remainingTime != 1 ==>
              Tick(rule, s).procs[c].isCompleted == s.procs[c].isCompleted
              && Tick(rule, s).procs[c].completionTime == s.procs[c].completionTime
              && Tick(rule, s).completed == s.completed
  {
    var m := Prepare(rule, s);
    PrepareFrame(rule, s);
    TickCases(rule, s);
    ServeRun(m, c);
    DispatchAt(rule, m, c, c);
  }

  /** A process other than the one that runs never completes in this tick. */
  lemma TickOthers(rule: Rule, s: Sim, i: nat)
    requires WellFormed(s) && i < |s.procs| && Chosen(Prepare(rule, s)) != Some(i)
    ensures Tick(rule, s).procs[i].isCompleted == s.procs[i].isCompleted
    ensures Tick(rule, s).procs[i].completionTime == s.procs[i].completionTime
    ensures Tick(rule, s).procs[i].startTime == s.procs[i].startTime
  {
    var m := Prepare(rule, s);
    PrepareFrame(rule, s);
    TickCases(rule, s);
    match Chosen(m) {
      case None =>
      case Some(c) =>
        ServeFrameAt(m, c, i);
        DispatchAt(rule, m, c, i);
    }
  }
}
