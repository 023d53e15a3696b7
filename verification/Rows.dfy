/** What the collector reports about one cgroup (collector/main.go). */
module Rows {
  import opened Words
  import opened KubePath
  import Block = BlockLatency
  import Runq = RunqLatency

  datatype Row = Row(
    cgroupId: U64,
    cgroupPath: string,
    cgroupKind: CgroupKind,
    kubeInfo: KubePathInfo,
    stats: Block.IoStats,
    runqStats: Runq.RunqStats,
    avgNs: U64)

  datatype Field = IoCount | TotalBytes | TotalLatency | ErrorCount | RunqEvents | RunqLatency

  function Value(r: Row, f: Field): U64 {
    match f
    case IoCount => r.stats.ioCount
    case TotalBytes => r.stats.totalBytes
    case TotalLatency => r.stats.totalLatency
    case ErrorCount => r.stats.errorCount
    case RunqEvents => r.runqStats.count
    case RunqLatency => r.runqStats.totalLatency
  }

  datatype Labels = Labels(kind: string, podUid: string)

  function LabelsOf(r: Row): Labels {
    Labels(r.cgroupKind.Name(), r.kubeInfo.podUid)
  }

  function LabelsIn(rows: seq<Row>): set<Labels> {
    set i | 0 <= i < |rows| :: LabelsOf(rows[i])
  }
}
