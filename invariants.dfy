/**
 * The state invariant of the scheduler's loop and its preservation by every
 * tick: queue membership (each admitted, unfinished process sits in exactly
 * the queue its ring flag names; the priority queue holds no finished
 * process; no queue holds an entry twice), per-process bookkeeping (start,
 * response and completion times, the quantum counter), the Gantt chart's
 * clock and the completed count.
 */
module Invariants {
  import opened Processes
  import opened Sorting
  import opened Scheduler
  import opened TickFacts

  /** The number of completed processes in the list. */
  function CompletedCount(procs: seq<Process>): (n: nat)
    ensures n <= |procs|
  {
    if procs == [] then 0
    else CompletedCount(procs[..|procs| - 1]) + (if procs[|procs| - 1].isCompleted then 1 else 0)
  }

  /** A process that has not been admitted yet: nothing of its run has happened. */
  predicate Fresh(p: Process) {
    !p.isInRrQueue && p.startTime == -1 && p.remainingTime == p.burstTime
    && !p.isCompleted && p.quantumUsed == 0
  }

  /**
   * The bookkeeping of one process at tick `time`. A started process
   * started after it arrived and before now, its response time is start
   * minus arrival, and it cannot have run more ticks than have passed since
   * its start. It is completed exactly when its remaining time has reached 0,
   * and then its completion time lies between start plus burst and now.
   */
  predicate ProcOk(p: Process, time: int, admitted: bool) {
    0 <= p.quantumUsed < TimeQuantum
    && p.remainingTime <= p.burstTime
    && (admitted ==> p.arrivalTime <= time)
    && (!admitted ==> Fresh(p))
    && (p.startTime == -1 ==> p.responseTime == -1 && p.remainingTime == p.burstTime)
    && (p.startTime != -1 ==>
          p.arrivalTime <= p.startTime < time
          && p.responseTime == p.startTime - p.arrivalTime
          && p.burstTime - p.remainingTime <= time - p.startTime)
    && (p.isCompleted <==> 0 < p.burstTime && p.remainingTime <= 0)
    && (p.isCompleted ==> p.startTime != -1 && p.startTime + p.burstTime <= p.completionTime <= time)
    && (!p.isCompleted ==> p.completionTime == 0)
  }

  predicate ProcsOk(s: Sim) {
    forall i :: 0 <= i < |s.procs| ==> ProcOk(s.procs[i], s.time, i < s.nextIdx)
  }

  /**
   * Both queues hold admitted processes without repeats; the priority queue
   * holds no ring member and no completed process; the ring holds only ring
   * members.
   */
  predicate QueuesOk(s: Sim) {
    WellFormed(s) && NoDup(s.pq) && NoDup(s.rr)
    && (forall k :: 0 <= k < |s.pq| ==>
          s.pq[k] < s.nextIdx && !s.procs[s.pq[k]].isInRrQueue && !s.procs[s.pq[k]].isCompleted)
    && (forall k :: 0 <= k < |s.rr| ==> s.rr[k] < s.nextIdx && s.procs[s.rr[k]].isInRrQueue)
  }

  /** Every admitted process that has not completed waits in the queue its ring flag names. */
  predicate NothingLost(s: Sim)
    requires WellFormed(s)
  {
    forall i :: 0 <= i < s.nextIdx && !s.procs[i].isCompleted ==>
      if s.procs[i].isInRrQueue then i in s.rr else i in s.pq
  }

  /** The Gantt chart lists earlier ticks only, in strictly increasing order. */
  predicate ClockOk(s: Sim) {
    0 <= s.time
    && (forall k :: 0 <= k < |s.gantt| ==> s.gantt[k].time < s.time)
    && (forall a, b :: 0 <= a < b < |s.gantt| ==> s.gantt[a].time < s.gantt[b].time)
  }

  /** The invariant of the scheduler's loop. */
  predicate Inv(s: Sim) {
    QueuesOk(s) && NothingLost(s) && ProcsOk(s) && ClockOk(s)
    && s.completed == CompletedCount(s.procs)
    && SortedBy(s.procs, ArrivalKey) && DistinctBy(s.procs, PidOf)
  }

  // ------------------------------------------------------------- helpers

  lemma NoDupAppend(a: seq<nat>, b: seq<nat>)
    requires NoDup(a) && NoDup(b) && forall x :: x in a ==> x !in b
    ensures NoDup(a + b)
  {
    forall i, j | 0 <= i < j < |a + b|
      ensures (a + b)[i] != (a + b)[j]
    {
      if j >= |a| && i < |a| {
        assert (a + b)[i] in a && (a + b)[j] in b;
      }
    }
  }

  function AsInt(i: nat): int {
    i
  }

  /** Sorting a queue without repeats gives a queue without repeats. */
  lemma SortNoDup(q: seq<nat>, key: nat -> Key)
    requires NoDup(q)
    ensures NoDup(SortBy(q, key))
  {
    assert DistinctBy(q, AsInt);
    SortByDistinct(q, key, AsInt);
    var r := SortBy(q, key);
    assert forall a, b :: 0 <= a < b < |r| ==> AsInt(r[a]) != AsInt(r[b]);
  }

  lemma RotateNoDup(q: seq<nat>)
    requires NoDup(q)
    ensures NoDup(Rotate(q))
  {
    if q != [] {
      var r := Rotate(q);
      forall a, b | 0 <= a < b < |r|
        ensures r[a] != r[b]
      {
        if b == |r| - 1 {
          assert r[a] == q[a + 1] && r[b] == q[0];
        } else {
          assert r[a] == q[a + 1] && r[b] == q[b + 1];
        }
      }
    }
  }

  lemma TailNoDup(q: seq<nat>)
    requires NoDup(q) && q != []
    ensures NoDup(q[1..]) && q[0] !in q[1..]
  {
    forall a, b | 0 <= a < b < |q[1..]|
      ensures q[1..][a] != q[1..][b]
    {
      assert q[1..][a] == q[a + 1] && q[1..][b] == q[b + 1];
    }
  }

  /** Changing one record changes the count only by that record's flag. */
  lemma {:induction false} CountUpdate(procs: seq<Process>, c: nat, p: Process)
    requires c < |procs|
    ensures CompletedCount(procs[c := p])
            == CompletedCount(procs) - (if procs[c].isCompleted then 1 else 0)
               + (if p.isCompleted then 1 else 0)
  {
    var n := |procs| - 1;
    if c < n {
      CountUpdate(procs[..n], c, p);
      assert procs[c := p][..n] == procs[..n][c := p];
    } else {
      assert procs[c := p][..n] == procs[..n];
    }
  }

  lemma {:induction false} CountSame(ps: seq<Process>, qs: seq<Process>)
    requires |ps| == |qs|
    requires forall i :: 0 <= i < |ps| ==> ps[i].isCompleted == qs[i].isCompleted
    ensures CompletedCount(ps) == CompletedCount(qs)
  {
    if ps != [] {
      CountSame(ps[..|ps| - 1], qs[..|qs| - 1]);
    }
  }

  /** The ordering and the distinctness of the list survive any change that keeps identities. */
  lemma IdentityKept(ps: seq<Process>, qs: seq<Process>)
    requires |ps| == |qs| && forall i :: 0 <= i < |ps| ==> SameIdentity(qs[i], ps[i])
    requires SortedBy(ps, ArrivalKey) && DistinctBy(ps, PidOf)
    ensures SortedBy(qs, ArrivalKey) && DistinctBy(qs, PidOf)
  {
    assert forall i :: 0 <= i < |ps| ==> ArrivalKey(qs[i]) == ArrivalKey(ps[i]);
    assert forall i :: 0 <= i < |ps| ==> PidOf(qs[i]) == PidOf(ps[i]);
  }

  /** The bookkeeping stays valid as the clock moves on. */
  lemma ProcOkLater(p: Process, time: int, time': int, admitted: bool)
    requires ProcOk(p, time, admitted) && time <= time'
    ensures ProcOk(p, time', admitted)
  {
  }

  /** Distinct pids identify a process by its pid. */
  lemma SamePid(s: Sim, i: nat, j: nat)
    requires DistinctBy(s.procs, PidOf) && i < |s.procs| && j < |s.procs|
    requires s.procs[i].pid == s.procs[j].pid
    ensures i == j
  {
  }

  // ---------------------------------------------------------- admission

  lemma AdmitInv(s: Sim)
    requires Inv(s)
    ensures Inv(Admit(s))
  {
    var a := Admit(s);
    var added := Range(s.nextIdx, a.nextIdx);
    assert a.pq == s.pq + added;
    forall i | 0 <= i < |a.procs|
      ensures ProcOk(a.procs[i], a.time, i < a.nextIdx)
    {
      assert ProcOk(s.procs[i], s.time, i < s.nextIdx);
    }
    forall x | x in s.pq
      ensures x !in added
    {
      var k :| 0 <= k < |s.pq| && s.pq[k] == x;
    }
    assert NoDup(added) by {
      forall x, y | 0 <= x < y < |added|
        ensures added[x] != added[y]
      {
        RangeAt(s.nextIdx, a.nextIdx, x);
        RangeAt(s.nextIdx, a.nextIdx, y);
      }
    }
    NoDupAppend(s.pq, added);
    forall k | 0 <= k < |a.pq|
      ensures a.pq[k] < a.nextIdx && !a.procs[a.pq[k]].isInRrQueue && !a.procs[a.pq[k]].isCompleted
    {
      if k >= |s.pq| {
        assert a.pq[k] in added;
        assert ProcOk(s.procs[a.pq[k]], s.time, false);
      }
    }
    forall i | 0 <= i < a.nextIdx && !a.procs[i].isCompleted
      ensures if a.procs[i].isInRrQueue then i in a.rr else i in a.pq
    {
      if i >= s.nextIdx {
        assert i in added;
        assert ProcOk(s.procs[i], s.time, false);
      }
    }
  }

  lemma {:induction false} RangeAt(lo: nat, hi: nat, k: nat)
    requires lo <= hi && k < hi - lo
    ensures Range(lo, hi)[k] == lo + k
    decreases hi - lo
  {
    if k > 0 {
      RangeAt(lo + 1, hi, k - 1);
    }
  }

  // ----------------------------------------------------------- migration

  /** Membership in a queue that satisfies `QueuesOk`, stated for members rather than positions. */
  lemma QueueMembers(s: Sim)
    requires QueuesOk(s)
    ensures forall x :: x in s.pq ==>
              x < s.nextIdx && !s.procs[x].isInRrQueue && !s.procs[x].isCompleted
    ensures forall x :: x in s.rr ==> x < s.nextIdx && s.procs[x].isInRrQueue
  {
    forall x | x in s.pq
      ensures x < s.nextIdx && !s.procs[x].isInRrQueue && !s.procs[x].isCompleted
    {
      var k :| 0 <= k < |s.pq| && s.pq[k] == x;
    }
    forall x | x in s.rr
      ensures x < s.nextIdx && s.procs[x].isInRrQueue
    {
      var k :| 0 <= k < |s.rr| && s.rr[k] == x;
    }
  }

  /** What migration does to one process record. */
  lemma MigrateAt(a: Sim, i: nat)
    requires Inv(a) && i < |a.procs|
    ensures var g := Migrate(a);
      ProcOk(g.procs[i], g.time, i < g.nextIdx)
      && SameIdentity(g.procs[i], a.procs[i])
      && g.procs[i].isCompleted == a.procs[i].isCompleted
      && (i !in a.pq ==> g.procs[i] == a.procs[i])
      && (i in a.pq ==> g.procs[i].isInRrQueue == LongWait(a.procs[i]))
  {
    MigrateExact(a);
    QueueMembers(a);
    assert ProcOk(a.procs[i], a.time, i < a.nextIdx);
  }

  lemma MigrateQueues(a: Sim)
    requires QueuesOk(a)
    ensures QueuesOk(Migrate(a))
  {
    MigrateExact(a);
    MigratedQueues(a, Migrate(a));
  }

  /** Any state that migration's exact effect describes keeps `QueuesOk`. */
  lemma MigratedQueues(a: Sim, g: Sim)
    requires QueuesOk(a) && |g.procs| == |a.procs| && g.nextIdx == a.nextIdx
    requires g.pq == Stayers(a.procs, a.pq) && g.rr == a.rr + Movers(a.procs, a.pq)
    requires forall i :: 0 <= i < |a.procs| ==> g.procs[i] == Migrated(a.procs, a.pq, i)
    ensures QueuesOk(g)
  {
    QueueMembers(a);
    SplitMembers(a.procs, a.pq);
    var stay, move := Stayers(a.procs, a.pq), Movers(a.procs, a.pq);
    forall k | 0 <= k < |g.pq|
      ensures g.pq[k] < g.nextIdx && !g.procs[g.pq[k]].isInRrQueue && !g.procs[g.pq[k]].isCompleted
    {
      assert g.pq[k] in stay;
    }
    forall x | x in a.rr
      ensures x !in move
    {
    }
    NoDupAppend(a.rr, move);
    forall k | 0 <= k < |g.rr|
      ensures g.rr[k] < g.nextIdx && g.procs[g.rr[k]].isInRrQueue
    {
      if k >= |a.rr| {
        assert g.rr[k] == move[k - |a.rr|];
        assert g.rr[k] in move;
      }
    }
  }

  lemma MigrateLost(a: Sim)
    requires Inv(a)
    ensures NothingLost(Migrate(a))
  {
    var g := Migrate(a);
    MigrateExact(a);
    QueueMembers(a);
    SplitMembers(a.procs, a.pq);
    forall i | 0 <= i < g.nextIdx && !g.procs[i].isCompleted
      ensures if g.procs[i].isInRrQueue then i in g.rr else i in g.pq
    {
      assert !a.procs[i].isCompleted;
    }
  }

  lemma MigrateInv(a: Sim)
    requires Inv(a)
    ensures Inv(Migrate(a))
  {
    var g := Migrate(a);
    forall i | 0 <= i < |a.procs|
      ensures ProcOk(g.procs[i], g.time, i < g.nextIdx)
      ensures SameIdentity(g.procs[i], a.procs[i])
      ensures g.procs[i].isCompleted == a.procs[i].isCompleted
    {
      MigrateAt(a, i);
    }
    MigrateQueues(a);
    MigrateLost(a);
    CountSame(a.procs, g.procs);
    IdentityKept(a.procs, g.procs);
  }

  // ---------------------------------------------------------------- sort

  lemma PrepareInv(rule: Rule, s: Sim)
    requires WellFormed(s) && Inv(Gathered(s))
    ensures Inv(Prepare(rule, s))
  {
    var g := Gathered(s);
    var q := SortBy<nat>(g.pq, QueueKey(rule, g.procs));
    PrepareIsSort(rule, s);
    SortNoDup(g.pq, QueueKey(rule, g.procs));
    ReorderInv(g, q);
  }

  /** Reordering the priority queue without repeats keeps the invariant. */
  lemma ReorderInv(g: Sim, q: seq<nat>)
    requires Inv(g) && NoDup(q) && multiset(q) == multiset(g.pq)
    ensures Inv(g.(pq := q))
  {
    var m := g.(pq := q);
    forall k | 0 <= k < |q|
      ensures q[k] < m.nextIdx && !m.procs[q[k]].isInRrQueue && !m.procs[q[k]].isCompleted
    {
      assert q[k] in multiset(g.pq);
      var j :| 0 <= j < |g.pq| && g.pq[j] == q[k];
    }
    forall i | 0 <= i < m.nextIdx && !m.procs[i].isCompleted
      ensures if m.procs[i].isInRrQueue then i in m.rr else i in q
    {
      if !m.procs[i].isInRrQueue {
        assert i in multiset(g.pq);
      }
    }
  }

  /** An idle tick keeps the invariant. */
  lemma IdleInv(m: Sim)
    requires Inv(m)
    ensures Inv(m.(time := m.time + 1))
  {
    var t := m.(time := m.time + 1);
    forall i | 0 <= i < |t.procs|
      ensures ProcOk(t.procs[i], t.time, i < t.nextIdx)
    {
      ProcOkLater(m.procs[i], m.time, t.time, i < m.nextIdx);
    }
  }

  // ------------------------------------------------------ steps 4 to 7

  /** The process chosen to run has been admitted, and it sits at the head of its queue. */
  lemma ChosenAdmitted(m: Sim, c: nat)
    requires Inv(m) && Chosen(m) == Some(c)
    ensures c < m.nextIdx
    ensures m.pq != [] ==> c == m.pq[0] && !m.procs[c].isInRrQueue && !m.procs[c].isCompleted
    ensures m.pq == [] ==> m.rr != [] && c == m.rr[0] && m.procs[c].isInRrQueue
  {
  }

  /** The bookkeeping of the process that runs stays valid across steps 4 to 7. */
  lemma ServeChosenOk(m: Sim, c: nat)
    requires Inv(m) && Chosen(m) == Some(c)
    ensures ProcOk(Serve(m, c).procs[c], m.time + 1, true)
  {
    ChosenAdmitted(m, c);
    assert ProcOk(m.procs[c], m.time, true);
    ServeFrameAt(m, c, c);
    ServeRun(m, c);
    ServeQuantum(m, c);
  }

  lemma ServeProcs(m: Sim, c: nat)
    requires Inv(m) && Chosen(m) == Some(c)
    ensures ProcsOk(Serve(m, c))
    ensures forall j :: 0 <= j < |m.procs| ==> SameIdentity(Serve(m, c).procs[j], m.procs[j])
  {
    var v := Serve(m, c);
    ServeClock(m, c);
    ServeQueues(m, c);
    ChosenAdmitted(m, c);
    forall j | 0 <= j < |v.procs|
      ensures ProcOk(v.procs[j], v.time, j < v.nextIdx)
      ensures SameIdentity(v.procs[j], m.procs[j])
    {
      ServeFrameAt(m, c, j);
      if j == c {
        ServeChosenOk(m, c);
      } else {
        ProcOkLater(m.procs[j], m.time, v.time, j < m.nextIdx);
      }
    }
  }

  /** Steps 4 to 7 add one to the completed count exactly when they complete the process. */
  lemma ServeCount(m: Sim, c: nat)
    requires Inv(m) && Chosen(m) == Some(c)
    ensures Serve(m, c).completed == CompletedCount(Serve(m, c).procs)
  {
    var v := Serve(m, c);
    ChosenAdmitted(m, c);
    assert ProcOk(m.procs[c], m.time, true);
    ServeRun(m, c);
    ServeQueues(m, c);
    forall j | 0 <= j < |m.procs|
      ensures v.procs[j] == m.procs[c := v.procs[c]][j]
    {
      ServeFrameAt(m, c, j);
    }
    assert v.procs == m.procs[c := v.procs[c]];
    CountUpdate(m.procs, c, v.procs[c]);
  }

  /** The ring as steps 4 to 6 leave it has the members and the uniqueness of the ring before. */
  lemma RingBeforeCompletionOk(m: Sim, c: nat)
    requires Inv(m) && c < |m.procs|
    ensures var r6 := RingBeforeCompletion(m, c);
      NoDup(r6) && forall x :: x in r6 <==> x in m.rr
  {
    ServeQueues(m, c);
    var r6 := RingBeforeCompletion(m, c);
    if r6 == Rotate(m.rr) {
      RotateNoDup(m.rr);
    } else if r6 == Rotate(Rotate(m.rr)) {
      RotateNoDup(m.rr);
      RotateNoDup(Rotate(m.rr));
    }
    forall x
      ensures x in r6 <==> x in m.rr
    {
      assert x in r6 <==> x in multiset(r6);
    }
  }

  /** A queue that completion pops loses its head, and that head is the process that ran. */
  lemma ServePops(m: Sim, c: nat)
    requires Inv(m) && Chosen(m) == Some(c)
    ensures var v := Serve(m, c); var r6 := RingBeforeCompletion(m, c);
      (v.pq == m.pq || (m.pq != [] && m.pq[0] == c && v.pq == m.pq[1..]))
      && (v.rr == r6 || (r6 != [] && r6[0] == c && v.rr == r6[1..]))
      && (v.pq != m.pq || v.rr != r6 ==> m.procs[c].remainingTime == 1)
      && (m.procs[c].remainingTime == 1 && c in m.pq ==> m.pq[0] == c && v.pq == m.pq[1..])
  {
    var v := Serve(m, c);
    var r6 := RingBeforeCompletion(m, c);
    ChosenAdmitted(m, c);
    ServeQueues(m, c);
    RingBeforeCompletionOk(m, c);
    if v.rr != r6 {
      assert r6[0] in m.rr;
      SamePid(m, r6[0], c);
    }
  }

  lemma ServePq(m: Sim, c: nat)
    requires Inv(m) && Chosen(m) == Some(c)
    ensures var v := Serve(m, c);
      NoDup(v.pq)
      && forall k :: 0 <= k < |v.pq| ==>
           v.pq[k] < v.nextIdx && !v.procs[v.pq[k]].isInRrQueue && !v.procs[v.pq[k]].isCompleted
  {
    var v := Serve(m, c);
    ServePops(m, c);
    ServeQueues(m, c);
    QueueMembers(m);
    var popped := v.pq != m.pq;
    if popped {
      TailNoDup(m.pq);
    }
    forall k | 0 <= k < |v.pq|
      ensures v.pq[k] < v.nextIdx && !v.procs[v.pq[k]].isInRrQueue && !v.procs[v.pq[k]].isCompleted
    {
      var x := v.pq[k];
      if popped {
        assert v.pq[k] == m.pq[k + 1];
        assert x != c;
      }
      assert x in m.pq;
      ServeFrameAt(m, c, x);
      if x == c {
        ServeRun(m, c);
      }
    }
  }

  lemma ServeRr(m: Sim, c: nat)
    requires Inv(m) && Chosen(m) == Some(c)
    ensures var v := Serve(m, c);
      NoDup(v.rr) && forall k :: 0 <= k < |v.rr| ==> v.rr[k] < v.nextIdx && v.procs[v.rr[k]].isInRrQueue
  {
    var v := Serve(m, c);
    var r6 := RingBeforeCompletion(m, c);
    ServePops(m, c);
    ServeQueues(m, c);
    RingBeforeCompletionOk(m, c);
    QueueMembers(m);
    if v.rr != r6 {
      TailNoDup(r6);
    }
    forall k | 0 <= k < |v.rr|
      ensures v.rr[k] < v.nextIdx && v.procs[v.rr[k]].isInRrQueue
    {
      var x := v.rr[k];
      assert x in r6;
      ServeFrameAt(m, c, x);
    }
  }

  /** The process that ran and did not complete stays in its queue. */
  lemma ServeLostChosen(m: Sim, c: nat)
    requires Inv(m) && Chosen(m) == Some(c) && !Serve(m, c).procs[c].isCompleted
    ensures Serve(m, c).pq == m.pq && Serve(m, c).rr == RingBeforeCompletion(m, c)
  {
    ServeQueues(m, c);
    ServeRun(m, c);
  }

  /**
   * No process is lost by a state change that keeps the ring flags, changes
   * the records of `c` alone, and takes at most the head `c` off each queue
   * (the ring after a permutation `r6`), and only when `c` completes.
   */
  lemma LostKept(m: Sim, c: nat, v: Sim, r6: seq<nat>)
    requires WellFormed(m) && NothingLost(m) && WellFormed(v) && c < |m.procs|
    requires v.nextIdx == m.nextIdx && |v.procs| == |m.procs|
    requires forall j :: 0 <= j < |m.procs| ==> v.procs[j].isInRrQueue == m.procs[j].isInRrQueue
    requires forall j :: 0 <= j < |m.procs| && j != c ==> v.procs[j].isCompleted == m.procs[j].isCompleted
    requires !v.procs[c].isCompleted ==> !m.procs[c].isCompleted && v.pq == m.pq && v.rr == r6
    requires v.pq == m.pq || (m.pq != [] && m.pq[0] == c && v.pq == m.pq[1..])
    requires v.rr == r6 || (r6 != [] && r6[0] == c && v.rr == r6[1..])
    requires forall x :: x in r6 <==> x in m.rr
    ensures NothingLost(v)
  {
    forall i | 0 <= i < v.nextIdx && !v.procs[i].isCompleted
      ensures if v.procs[i].isInRrQueue then i in v.rr else i in v.pq
    {
      if i != c {
        if v.pq != m.pq {
          assert m.pq == [m.pq[0]] + m.pq[1..];
        }
        if v.rr != r6 {
          assert r6 == [r6[0]] + r6[1..];
        }
      }
    }
  }

  lemma ServeLost(m: Sim, c: nat)
    requires Inv(m) && Chosen(m) == Some(c)
    ensures NothingLost(Serve(m, c))
  {
    var v := Serve(m, c);
    var r6 := RingBeforeCompletion(m, c);
    ServePops(m, c);
    ServeQueues(m, c);
    RingBeforeCompletionOk(m, c);
    forall j | 0 <= j < |m.procs|
      ensures v.procs[j].isInRrQueue == m.procs[j].isInRrQueue
      ensures j != c ==> v.procs[j].isCompleted == m.procs[j].isCompleted
    {
      ServeFrameAt(m, c, j);
    }
    if !v.procs[c].isCompleted {
      ServeLostChosen(m, c);
      ServeRun(m, c);
    }
    LostKept(m, c, v, r6);
  }

  /** Steps 4 to 7 keep the invariant. */
  lemma ServeInv(m: Sim, c: nat)
    requires Inv(m) && Chosen(m) == Some(c)
    ensures Inv(Serve(m, c))
  {
    var v := Serve(m, c);
    ServeProcs(m, c);
    ServeCount(m, c);
    ServePq(m, c);
    ServeRr(m, c);
    ServeLost(m, c);
    ServeClock(m, c);
    IdentityKept(m.procs, v.procs);
  }

  // ---------------------------------------------------------------- aging

  /** Aging keeps the invariant: it only touches the three aging fields. */
  lemma AgeInv(rule: Rule, v: Sim, ranPid: int)
    requires Inv(v)
    ensures Inv(Age(rule, v, ranPid))
  {
    var t := Age(rule, v, ranPid);
    AgeFrame(rule, v, ranPid);
    forall i | 0 <= i < |v.procs|
      ensures ProcOk(t.procs[i], t.time, i < t.nextIdx)
      ensures SameIdentity(t.procs[i], v.procs[i])
      ensures t.procs[i].isCompleted == v.procs[i].isCompleted
      ensures t.procs[i].isInRrQueue == v.procs[i].isInRrQueue
    {
      assert ProcOk(v.procs[i], v.time, i < v.nextIdx);
    }
    CountSame(v.procs, t.procs);
    IdentityKept(v.procs, t.procs);
  }

  // ------------------------------------------------------------- the loop

  /** Every tick keeps the invariant. */
  lemma TickInv(rule: Rule, s: Sim)
    requires Inv(s)
    ensures Inv(Tick(rule, s))
  {
    PrepareInvFrom(rule, s);
    var m := Prepare(rule, s);
    TickCases(rule, s);
    match Chosen(m) {
      case None =>
        IdleInv(m);
      case Some(c) =>
        DispatchInv(rule, m, c);
    }
  }

  /** Admission, migration and the sort keep the invariant. */
  lemma PrepareInvFrom(rule: Rule, s: Sim)
    requires Inv(s)
    ensures Inv(Prepare(rule, s))
  {
    AdmitInv(s);
    MigrateInv(Admit(s));
    PrepareInv(rule, s);
  }

  /** Steps 4 to 8 keep the invariant for the chosen process. */
  lemma DispatchInv(rule: Rule, m: Sim, c: nat)
    requires Inv(m) && Chosen(m) == Some(c)
    ensures c < |m.procs| && Inv(Dispatch(rule, m, c))
  {
    ServeInv(m, c);
    DispatchIsServeThenAge(rule, m, c);
    AgeInv(rule, Serve(m, c), m.procs[c].pid);
  }

  lemma {:induction false} CountNone(procs: seq<Process>)
    requires forall i :: 0 <= i < |procs| ==> !procs[i].isCompleted
    ensures CompletedCount(procs) == 0
  {
    if procs != [] {
      CountNone(procs[..|procs| - 1]);
    }
  }

  /**
   * The state before the first tick satisfies the invariant when every
   * process is new (as the program creates them) and pids are distinct.
   */
  lemma InitialInv(processes: seq<Process>)
    requires forall i :: 0 <= i < |processes| ==> Pristine(processes[i])
    requires DistinctBy(processes, PidOf)
    ensures Inv(Initial(processes))
  {
    var s := Initial(processes);
    forall i | 0 <= i < |s.procs|
      ensures Pristine(s.procs[i])
    {
      assert s.procs[i] in multiset(processes);
    }
    CountNone(s.procs);
    SortBySorted(processes, ArrivalKey);
    SortByDistinct(processes, ArrivalKey, PidOf);
  }

  /** Every state the loop reaches satisfies the invariant. */
  lemma {:induction false} RunInv(rule: Rule, s: Sim, fuel: nat)
    requires Inv(s)
    ensures Inv(Run(rule, s, fuel))
    decreases fuel
  {
    if s.completed < |s.procs| && fuel > 0 {
      var t, fuel' := Tick(rule, s), fuel - 1;
      TickInv(rule, s);
      RunInv(rule, t, fuel');
      RunStep(rule, s, t, fuel, fuel');
    }
  }

  // ------------------------------------------------------ priority floor

  predicate AllAboveFloor(procs: seq<Process>) {
    forall i :: 0 <= i < |procs| ==> AboveFloor(procs[i])
  }

  /** Under rule '1' a tick never takes a priority below 1 (unless it started there). */
  lemma FloorTick(s: Sim)
    requires WellFormed(s) && AllAboveFloor(s.procs)
    ensures AllAboveFloor(Tick(LowerIsHigher, s).procs)
  {
    var m := Prepare(LowerIsHigher, s);
    PrepareFrame(LowerIsHigher, s);
    assert AllAboveFloor(m.procs) by {
      forall i | 0 <= i < |m.procs|
        ensures AboveFloor(m.procs[i])
      {
        assert AboveFloor(s.procs[i]);
      }
    }
    TickCases(LowerIsHigher, s);
    match Chosen(m) {
      case None =>
      case Some(c) =>
        var v := Serve(m, c);
        ServeQuantum(m, c);
        forall j | 0 <= j < |v.procs|
          ensures AboveFloor(v.procs[j])
        {
          ServeFrameAt(m, c, j);
        }
        DispatchIsServeThenAge(LowerIsHigher, m, c);
        var queue := v.pq + v.rr;
        AgeUpToFloor(v.procs, v.log, queue, m.procs[c].pid, v.time, |queue|);
    }
  }

  /** Under rule '1' no priority ever drops below 1 (unless it started there). */
  lemma {:induction false} FloorRun(s: Sim, fuel: nat)
    requires WellFormed(s) && AllAboveFloor(s.procs)
    ensures AllAboveFloor(Run(LowerIsHigher, s, fuel).procs)
    decreases fuel
  {
    if s.completed < |s.procs| && fuel > 0 {
      var t, fuel' := Tick(LowerIsHigher, s), fuel - 1;
      FloorTick(s);
      FloorRun(t, fuel');
      RunStep(LowerIsHigher, s, t, fuel, fuel');
    }
  }

  // ----------------------------------------------------------- corollaries

  /**
   * Admission is exact: of the processes not admitted yet, it takes
   * precisely those that have arrived, because the list is sorted by
   * arrival, and it appends them in nondecreasing arrival order.
   */
  lemma AdmitExact(s: Sim)
    requires WellFormed(s) && SortedBy(s.procs, ArrivalKey)
    ensures forall i :: s.nextIdx <= i < |s.procs| ==>
              (i < Admit(s).nextIdx <==> s.procs[i].arrivalTime <= s.time)
    ensures var added := Admit(s).pq[|s.pq|..];
      forall a, b :: 0 <= a < b < |added| ==> s.procs[added[a]].arrivalTime <= s.procs[added[b]].arrivalTime
  {
    var a := Admit(s);
    var added := a.pq[|s.pq|..];
    assert added == Range(s.nextIdx, a.nextIdx);
    forall x, y | 0 <= x < y < |added|
      ensures s.procs[added[x]].arrivalTime <= s.procs[added[y]].arrivalTime
    {
      RangeAt(s.nextIdx, a.nextIdx, x);
      RangeAt(s.nextIdx, a.nextIdx, y);
    }
    forall i | a.nextIdx <= i < |s.procs|
      ensures s.procs[i].arrivalTime > s.time
    {
      assert KeyLe(ArrivalKey(s.procs[a.nextIdx]), ArrivalKey(s.procs[i])) || a.nextIdx == i;
    }
  }

  /** An idle tick happens only when every admitted process has completed. */
  lemma IdleMeansDone(rule: Rule, s: Sim)
    requires Inv(s) && Chosen(Prepare(rule, s)) == None
    ensures forall i :: 0 <= i < s.nextIdx ==> s.procs[i].isCompleted
  {
    IdleTick(rule, s);
  }

  lemma {:induction false} CountAll(procs: seq<Process>)
    requires CompletedCount(procs) >= |procs|
    ensures forall i :: 0 <= i < |procs| ==> procs[i].isCompleted
  {
    if procs != [] {
      CountAll(procs[..|procs| - 1]);
      assert forall i :: 0 <= i < |procs| - 1 ==> procs[..|procs| - 1][i] == procs[i];
    }
  }

  /**
   * When the loop stops because every process has completed, each
   * process's metrics are sound: its response time is at least 0 and at
   * most its waiting time, and its waiting time is therefore at least 0.
   */
  lemma FinalMetrics(rule: Rule, processes: seq<Process>, fuel: nat)
    requires forall i :: 0 <= i < |processes| ==> Pristine(processes[i])
    requires DistinctBy(processes, PidOf)
    requires Run(rule, Initial(processes), fuel).completed >= |processes|
    ensures var t := Run(rule, Initial(processes), fuel);
      forall i :: 0 <= i < |t.procs| ==>
        t.procs[i].isCompleted && 0 <= t.procs[i].startTime - t.procs[i].arrivalTime == t.procs[i].responseTime
        && t.procs[i].responseTime
           <= (t.procs[i].completionTime - t.procs[i].arrivalTime) - t.procs[i].burstTime
  {
    var t := Run(rule, Initial(processes), fuel);
    InitialInv(processes);
    RunInv(rule, Initial(processes), fuel);
    CountAll(t.procs);
    forall i | 0 <= i < |t.procs|
      ensures ProcOk(t.procs[i], t.time, i < t.nextIdx)
    {
    }
  }
}
