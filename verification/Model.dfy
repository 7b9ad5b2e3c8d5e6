/** Workload categories, and the per-PID and host-level breach projection
    (src/model.rs, src/governor/threshold_breach.rs). */
module Model {
  import opened Options
  import opened Text
  import opened Kernel

  datatype AICategory = Inference | Training | ModelDownload | Framework | NotAi

  /** One row of the annotated process table. */
  datatype Row = Row(pid: Pid, name: Bytes, category: AICategory, vramBytes: Option<nat>, rssMb: nat)

  /** What a platform snapshot contributes to the projection. */
  datatype Platform = Platform(totalVram: nat, totalMemory: nat, zones: seq<real>)

  datatype Thresholds = Thresholds(vramCriticalPct: real, ramCriticalPct: real, thermalRedC: real)

  function Percent(used: nat, total: nat): real
    requires total > 0
  {
    used as real / total as real * 100.0
  }

  /** An unmeasured metric never breaches. */
  predicate VramBreached(r: Row, p: Platform, t: Thresholds) {
    p.totalVram > 0 && r.vramBytes.Some? && Percent(r.vramBytes.value, p.totalVram) >= t.vramCriticalPct
  }

  predicate RamBreached(r: Row, p: Platform, t: Thresholds) {
    p.totalMemory / 1048576 > 0 && Percent(r.rssMb, p.totalMemory / 1048576) >= t.ramCriticalPct
  }

  /** The host is too hot when its hottest zone is, that is when any zone is. */
  predicate HostTooHot(p: Platform, t: Thresholds) {
    exists z <- p.zones :: z >= t.thermalRedC
  }

  function FindRow(rows: seq<Row>, pid: Pid): Option<Row> {
    if rows == [] then None
    else if rows[0].pid == pid then Some(rows[0])
    else FindRow(rows[1..], pid)
  }

  /** The first row with this PID, in table order. */
  ghost predicate FirstRow(rows: seq<Row>, pid: Pid, row: Row) {
    exists i :: 0 <= i < |rows| && rows[i] == row && row.pid == pid && forall j :: 0 <= j < i ==> rows[j].pid != pid
  }

  predicate NoRow(rows: seq<Row>, pid: Pid) {
    forall row <- rows :: row.pid != pid
  }

  /** A look-up finds the first row with the PID, and nothing if and only if no row has it. */
  lemma {:induction false} FindRowFinds(rows: seq<Row>, pid: Pid)
    ensures FindRow(rows, pid).None? <==> NoRow(rows, pid)
    ensures FindRow(rows, pid).Some? ==> FirstRow(rows, pid, FindRow(rows, pid).value)
  {
    if rows != [] && rows[0].pid != pid {
      FindRowFinds(rows[1..], pid);
      assert rows == [rows[0]] + rows[1..];
      if FindRow(rows, pid).Some? {
        var row := FindRow(rows, pid).value;
        var i :| 0 <= i < |rows[1..]| && rows[1..][i] == row && forall j :: 0 <= j < i ==> rows[1..][j].pid != pid;
        assert rows[i + 1] == row;
        assert forall j :: 1 <= j < i + 1 ==> rows[j] == rows[1..][j - 1];
      }
    }
  }
}
