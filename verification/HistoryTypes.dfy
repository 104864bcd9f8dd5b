/** The rows, tables and constants of the history database. */
module HistoryTypes {
  import opened Options

  /** The closed set of recorded columns. */
  datatype SeriesId =
    | CpuPercent
    | MemUsedPercent
    | GpuPercent
    | DiskReadRate
    | DiskWriteRate
    | NetDownloadRate
    | NetUploadRate

  /** One row without its key. `None` is SQL NULL: no reading, never a zero. */
  datatype Row = Row(
    cpuPercent: Option<real>,
    memUsedPercent: Option<real>,
    gpuPercent: Option<real>,
    diskReadRate: Option<real>,
    diskWriteRate: Option<real>,
    netDownloadRate: Option<real>,
    netUploadRate: Option<real>)
  {
    function Column(series: SeriesId): Option<real> {
      match series
      case CpuPercent => cpuPercent
      case MemUsedPercent => memUsedPercent
      case GpuPercent => gpuPercent
      case DiskReadRate => diskReadRate
      case DiskWriteRate => diskWriteRate
      case NetDownloadRate => netDownloadRate
      case NetUploadRate => netUploadRate
    }
  }

  datatype HistorySample = HistorySample(ts: int, row: Row)

  /** A table keyed by its INTEGER PRIMARY KEY, `ts_ms`. */
  type Table = map<int, Row>

  const RAW_MS := 1_800_000
  const RAW_ROW_CAP := 4_000
  const BUCKET_10S_MS := 10_000
  const BUCKET_1M_MS := 60_000
  const BUCKET_5M_MS := 300_000
  const RETENTION_10S_MS := 86_400_000
  const RETENTION_1M_MS := 604_800_000
  const RETENTION_5M_MS := 2_592_000_000

  /** The two tables hold the same rows on the keys `lo <= ts < hi`. */
  ghost predicate AgreeOn(t: Table, u: Table, lo: int, hi: int) {
    forall ts | lo <= ts < hi :: (ts in t <==> ts in u) && (ts in t ==> t[ts] == u[ts])
  }
}
