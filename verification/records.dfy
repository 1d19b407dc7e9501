/**
 The shapes the stats aggregation reads and writes: the decoded daemon record
 (`recStats`), the per-container previous CPU counters (`cpuEntry`) and the
 flat output (`ContainerStats` with its CPU and network parts).
 Field names follow the JSON keys of the daemon's stats document.
 */
module Records {
  import opened GoInt

  datatype Option<+T> = None | Some(value: T)

  // ---------------------------------------------------------------------------
  // Decoded daemon record
  // ---------------------------------------------------------------------------

  datatype CpuUsage = CpuUsage(usageInKernelmode: u64, usageInUsermode: u64, totalUsage: u64)

  datatype CpuStatsRaw = CpuStatsRaw(systemCpuUsage: u64, onlineCpus: u32, cpuUsage: CpuUsage)

  /** One `io_service_bytes_recursive` entry; `value` is a Go `int`. */
  datatype BlkioEntry = BlkioEntry(major: GoInt, minor: GoInt, op: string, value: GoInt)

  datatype MemoryStatsRaw = MemoryStatsRaw(usage: u64, limit: u64, inactiveFile: u64)

  /** The six counters the daemon reports per network interface. */
  datatype NetIface = NetIface(
    rxBytes: u64, rxErrors: u64, rxDropped: u64,
    txBytes: u64, txErrors: u64, txDropped: u64)

  /** The decoded stats document. `preCpuStats` is decoded but never read by
      the aggregation, which keeps its own previous counters instead. */
  datatype RecStats = RecStats(
    pidsCurrent: u64,
    cpuStats: CpuStatsRaw,
    preCpuStats: CpuStatsRaw,
    ioServiceBytesRecursive: seq<BlkioEntry>,
    memoryStats: MemoryStatsRaw,
    networks: map<string, NetIface>)

  // ---------------------------------------------------------------------------
  // Client state
  // ---------------------------------------------------------------------------

  /** The last CPU totals seen for one container. */
  datatype CpuEntry = CpuEntry(usageNS: u64, systemUsageNS: u64)

  /** Container ID -> last CPU totals, shared by every stats request of a client. */
  type CpuCounters = map<string, CpuEntry>

  /** The map a freshly constructed client starts with. */
  const InitialCpuCounters: CpuCounters := map[]

  // ---------------------------------------------------------------------------
  // Output
  // ---------------------------------------------------------------------------

  datatype ContainerCpuStats = ContainerCpuStats(
    usageNS: u64, usageUserNS: u64, usageKernelNS: u64,
    preUsageNS: u64, systemUsageNS: u64, preSystemUsageNS: u64,
    onlineCpus: u32)

  datatype ContainerNetStats = ContainerNetStats(
    sendBytes: u64, sendDropped: u64, sendErrors: u64,
    recvBytes: u64, recvDropped: u64, recvErrors: u64)

  datatype ContainerStats = ContainerStats(
    pIds: u64,
    cpu: ContainerCpuStats,
    net: ContainerNetStats,
    memoryUsageKiB: u64,
    memoryLimitKiB: u64,
    blockInputBytes: u64,
    blockOutputBytes: u64)

  const ZeroCpuEntry := CpuEntry(0, 0)
  const ZeroCpuStats := ContainerCpuStats(0, 0, 0, 0, 0, 0, 0)
  const ZeroNetStats := ContainerNetStats(0, 0, 0, 0, 0, 0)
  const ZeroStats := ContainerStats(0, ZeroCpuStats, ZeroNetStats, 0, 0, 0, 0)

  // ---------------------------------------------------------------------------
  // Diagnostics and failures
  // ---------------------------------------------------------------------------

  /** The non-fatal warning logged for a block-I/O entry whose op is neither
      "read" nor "write", tagged with the op and the container ID. */
  datatype Warning = UnknownBlkioOp(op: string, containerID: string)

  /** Why no record reached the aggregation: the daemon call failed, or its
      body did not decode. The message stands for Go's opaque `error`. */
  datatype StatsError = DaemonError(message: string) | DecodeError(message: string)

  /** The outcome of asking the daemon for one snapshot and decoding it. */
  datatype Fetch = Fetched(rec: RecStats) | FetchFailed(error: StatsError)
}
