/**
 * The metric arithmetic of the results report: processes are listed in
 * ascending pid order, each with turnaround = completion - arrival and
 * waiting = turnaround - burst, and the three columns are totalled.
 */
module Metrics {
  import opened Processes
  import opened Sorting

  /** One line of the metrics table. */
  datatype MetricRow = MetricRow(
    pid: int,
    arrivalTime: int,
    burstTime: int,
    priority: int,
    completionTime: int,
    turnaroundTime: int,
    waitingTime: int,
    responseTime: int)

  /** The report lists processes by pid. */
  function PidKey(p: Process): Key {
    (p.pid, 0)
  }

  function RowOf(p: Process): (r: MetricRow)
    ensures r.turnaroundTime == r.completionTime - r.arrivalTime
    ensures r.waitingTime == r.turnaroundTime - r.burstTime
    ensures r.pid == p.pid && r.arrivalTime == p.arrivalTime && r.burstTime == p.burstTime
    ensures r.priority == p.originalPriority && r.completionTime == p.completionTime
    ensures r.responseTime == p.responseTime
  {
    var turnaround := p.completionTime - p.arrivalTime;
    MetricRow(p.pid, p.arrivalTime, p.burstTime, p.originalPriority,
              p.completionTime, turnaround, turnaround - p.burstTime, p.responseTime)
  }

  function Rows(ps: seq<Process>): (r: seq<MetricRow>)
    ensures |r| == |ps|
  {
    if ps == [] then [] else Rows(ps[..|ps| - 1]) + [RowOf(ps[|ps| - 1])]
  }

  function SumTurnaround(rows: seq<MetricRow>): int {
    if rows == [] then 0 else SumTurnaround(rows[..|rows| - 1]) + rows[|rows| - 1].turnaroundTime
  }

  function SumWaiting(rows: seq<MetricRow>): int {
    if rows == [] then 0 else SumWaiting(rows[..|rows| - 1]) + rows[|rows| - 1].waitingTime
  }

  function SumResponse(rows: seq<MetricRow>): int {
    if rows == [] then 0 else SumResponse(rows[..|rows| - 1]) + rows[|rows| - 1].responseTime
  }

  function SumBurst(rows: seq<MetricRow>): int {
    if rows == [] then 0 else SumBurst(rows[..|rows| - 1]) + rows[|rows| - 1].burstTime
  }

  function SumCompletion(rows: seq<MetricRow>): int {
    if rows == [] then 0 else SumCompletion(rows[..|rows| - 1]) + rows[|rows| - 1].completionTime
  }

  function SumArrival(rows: seq<MetricRow>): int {
    if rows == [] then 0 else SumArrival(rows[..|rows| - 1]) + rows[|rows| - 1].arrivalTime
  }

  /**
   * The table and the three totals of the report: the rows are those of the
   * processes sorted by pid, and each total is the sum of its column.
   */
  method PrintResults(processes: seq<Process>)
    returns (rows: seq<MetricRow>, totalTat: int, totalWt: int, totalRt: int)
    ensures rows == Rows(SortBy(processes, PidKey))
    ensures totalTat == SumTurnaround(rows)
    ensures totalWt == SumWaiting(rows)
    ensures totalRt == SumResponse(rows)
  {
    if |processes| == 0 {
      return [], 0, 0, 0;
    }
    var sorted := SortBy(processes, PidKey);
    rows, totalTat, totalWt, totalRt := Tabulate(sorted);
  }

  /** The loop of the report over the sorted processes. */
  method Tabulate(sorted: seq<Process>)
    returns (rows: seq<MetricRow>, totalTat: int, totalWt: int, totalRt: int)
    ensures rows == Rows(sorted)
    ensures totalTat == SumTurnaround(rows)
    ensures totalWt == SumWaiting(rows)
    ensures totalRt == SumResponse(rows)
  {
    rows := [];
    totalTat, totalWt, totalRt := 0, 0, 0;
    for k := 0 to |sorted|
      invariant rows == Rows(sorted[..k])
      invariant totalTat == SumTurnaround(rows)
      invariant totalWt == SumWaiting(rows)
      invariant totalRt == SumResponse(rows)
    {
      var p := sorted[k];
      var turnaround := p.completionTime - p.arrivalTime;
      var waiting := turnaround - p.burstTime;
      totalTat := totalTat + turnaround;
      totalWt := totalWt + waiting;
      totalRt := totalRt + p.responseTime;
      var row := MetricRow(p.pid, p.arrivalTime, p.burstTime, p.originalPriority,
                           p.completionTime, turnaround, waiting, p.responseTime);
      RowsSnoc(sorted, k);
      SumsSnoc(rows, row);
      rows := rows + [row];
    }
    assert sorted[..|sorted|] == sorted;
  }

  /** One more process adds its row at the end. */
  lemma RowsSnoc(ps: seq<Process>, k: nat)
    requires k < |ps|
    ensures Rows(ps[..k + 1]) == Rows(ps[..k]) + [RowOf(ps[k])]
  {
    assert ps[..k + 1][..k] == ps[..k];
  }

  /** One more row adds its columns to the totals. */
  lemma SumsSnoc(rows: seq<MetricRow>, row: MetricRow)
    ensures SumTurnaround(rows + [row]) == SumTurnaround(rows) + row.turnaroundTime
    ensures SumWaiting(rows + [row]) == SumWaiting(rows) + row.waitingTime
    ensures SumResponse(rows + [row]) == SumResponse(rows) + row.responseTime
  {
    assert (rows + [row])[..|rows|] == rows;
  }

  lemma {:induction false} RowsAt(ps: seq<Process>, k: int)
    requires 0 <= k < |ps|
    ensures |Rows(ps)| == |ps| && Rows(ps)[k] == RowOf(ps[k])
  {
    if k < |ps| - 1 {
      RowsAt(ps[..|ps| - 1], k);
    } else if |ps| > 1 {
      RowsAt(ps[..|ps| - 1], 0);
    }
  }

  /**
   * The report lists the processes in ascending pid order, one row for every
   * process; when pids are distinct the order is strict.
   */
  lemma ReportOrderedByPid(processes: seq<Process>)
    ensures |Rows(SortBy(processes, PidKey))| == |processes|
    ensures forall i, j :: 0 <= i < j < |processes| ==>
              Rows(SortBy(processes, PidKey))[i].pid <= Rows(SortBy(processes, PidKey))[j].pid
    ensures forall p :: p in processes ==> RowOf(p) in Rows(SortBy(processes, PidKey))
    ensures DistinctBy(processes, PidOf) ==>
              forall i, j :: 0 <= i < j < |processes| ==>
                Rows(SortBy(processes, PidKey))[i].pid < Rows(SortBy(processes, PidKey))[j].pid
  {
    var sorted := SortBy(processes, PidKey);
    var rows := Rows(sorted);
    SortBySorted(processes, PidKey);
    if processes != [] {
      RowsAt(sorted, 0);
    }
    forall i | 0 <= i < |sorted|
      ensures rows[i] == RowOf(sorted[i])
    {
      RowsAt(sorted, i);
    }
    forall p | p in processes
      ensures RowOf(p) in rows
    {
      assert p in multiset(sorted);
      var k :| 0 <= k < |sorted| && sorted[k] == p;
      assert rows[k] == RowOf(p);
    }
    if DistinctBy(processes, PidOf) {
      SortByDistinct(processes, PidKey, PidOf);
    }
  }

  /**
   * The totals agree with the per-process identities: the waiting total is
   * the turnaround total less the burst total, and the turnaround total is
   * the completion total less the arrival total.
   */
  lemma {:induction false} TotalsIdentity(rows: seq<MetricRow>)
    requires forall k :: 0 <= k < |rows| ==>
               rows[k].turnaroundTime == rows[k].completionTime - rows[k].arrivalTime
               && rows[k].waitingTime == rows[k].turnaroundTime - rows[k].burstTime
    ensures SumWaiting(rows) == SumTurnaround(rows) - SumBurst(rows)
    ensures SumTurnaround(rows) == SumCompletion(rows) - SumArrival(rows)
  {
    if rows != [] {
      TotalsIdentity(rows[..|rows| - 1]);
    }
  }

  /** Every report satisfies the identities of `TotalsIdentity`. */
  lemma ReportTotals(processes: seq<Process>)
    ensures var rows := Rows(SortBy(processes, PidKey));
      SumWaiting(rows) == SumTurnaround(rows) - SumBurst(rows)
      && SumTurnaround(rows) == SumCompletion(rows) - SumArrival(rows)
  {
    var sorted := SortBy(processes, PidKey);
    var rows := Rows(sorted);
    forall k | 0 <= k < |rows|
      ensures rows[k].turnaroundTime == rows[k].completionTime - rows[k].arrivalTime
      ensures rows[k].waitingTime == rows[k].turnaroundTime - rows[k].burstTime
    {
      RowsAt(sorted, k);
    }
    TotalsIdentity(rows);
  }
}
