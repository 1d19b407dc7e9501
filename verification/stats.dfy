/**
 One stats request for one container: from the fetched and decoded daemon
 record and the client's stored CPU counters to the flat `ContainerStats`, the
 updated counters and the warnings logged on the way. A failed fetch or decode
 yields the zero record and the error, and touches nothing.
 */
module Stats {
  import opened Records
  import opened Network
  import opened Blkio
  import opened Memory
  import opened Cpu

  method GetContainerStats(counters: CpuCounters, containerID: string, fetched: Fetch, cpu: bool)
    returns (stats: ContainerStats, err: Option<StatsError>, counters': CpuCounters, warnings: seq<Warning>)
    ensures fetched.FetchFailed? ==> && stats == ZeroStats
                                     && err == Some(fetched.error)
                                     && counters' == counters
                                     && warnings == []
    ensures fetched.Fetched? ==> err == None
    ensures fetched.Fetched? ==>
              var rec := fetched.rec;
              var sample := CpuSample(counters, containerID, rec.cpuStats, cpu);
              && stats.pIds == rec.pidsCurrent
              && stats.cpu == sample.stats
              && counters' == sample.counters
              && stats.net.sendBytes == FieldSum(rec.networks, TxBytes)
              && stats.net.sendErrors == FieldSum(rec.networks, TxErrors)
              && stats.net.sendDropped == FieldSum(rec.networks, TxDropped)
              && stats.net.recvBytes == FieldSum(rec.networks, RxBytes)
              && stats.net.recvErrors == FieldSum(rec.networks, RxErrors)
              && stats.net.recvDropped == FieldSum(rec.networks, RxDropped)
              && stats.blockInputBytes == OpSum(rec.ioServiceBytesRecursive, ReadOp)
              && stats.blockOutputBytes == OpSum(rec.ioServiceBytesRecursive, WriteOp)
              && warnings == UnknownOps(rec.ioServiceBytesRecursive, containerID)
              && stats.memoryUsageKiB == MemoryUsageKiB(rec.memoryStats)
              && stats.memoryLimitKiB == MemoryLimitKiB(rec.memoryStats)
  {
    if fetched.FetchFailed? {
      return ZeroStats, Some(fetched.error), counters, [];
    }
    var rec := fetched.rec;
    var sample := CpuSample(counters, containerID, rec.cpuStats, cpu);
    counters' := sample.counters;
    var net := SumNetworks(rec.networks);
    var input, output;
    input, output, warnings := TotalBlkio(rec.ioServiceBytesRecursive, containerID);
    stats := ContainerStats(
      rec.pidsCurrent,
      sample.stats,
      net,
      MemoryUsageKiB(rec.memoryStats),
      MemoryLimitKiB(rec.memoryStats),
      input,
      output);
    err := None;
  }

  /** Two successful CPU-enabled requests for the same container, one after the
      other: the second reports the first's current totals as its previous ones,
      and the stored entry ends up holding the second's totals. */
  method TwoRequests(counters: CpuCounters, containerID: string, first: RecStats, second: RecStats)
    returns (s1: ContainerStats, s2: ContainerStats, counters': CpuCounters)
    ensures s2.cpu.preUsageNS == s1.cpu.usageNS == first.cpuStats.cpuUsage.totalUsage
    ensures s2.cpu.preSystemUsageNS == s1.cpu.systemUsageNS == first.cpuStats.systemCpuUsage
    ensures s2.cpu.usageNS == second.cpuStats.cpuUsage.totalUsage
    ensures containerID in counters'
            && counters'[containerID] == CpuEntry(second.cpuStats.cpuUsage.totalUsage, second.cpuStats.systemCpuUsage)
  {
    var e1, e2, w1, w2, mid;
    s1, e1, mid, w1 := GetContainerStats(counters, containerID, Fetched(first), true);
    s2, e2, counters', w2 := GetContainerStats(mid, containerID, Fetched(second), true);
  }
}
