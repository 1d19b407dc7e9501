/**
 Memory figures in KiB. Usage has the inactive page cache taken off with Go's
 wrap-around `uint64` subtraction; a reading where the cache exceeds usage is
 not clamped and comes out enormous, for the consumer to recognise as an anomaly.
 */
module Memory {
  import opened GoInt
  import opened Records

  const KiB := 1024

  function MemoryUsageKiB(m: MemoryStatsRaw): (r: u64)
    ensures m.inactiveFile <= m.usage ==> r * KiB <= m.usage - m.inactiveFile < r * KiB + KiB
    ensures m.usage < m.inactiveFile
            ==> r * KiB <= m.usage - m.inactiveFile + TwoTo64 < r * KiB + KiB
  {
    Sub(m.usage, m.inactiveFile) / KiB
  }

  function MemoryLimitKiB(m: MemoryStatsRaw): (r: u64)
    ensures r * KiB <= m.limit < r * KiB + KiB
  {
    m.limit / KiB
  }

  /** Without an anomaly the reported usage never exceeds the raw usage. */
  lemma UsageBoundedByRawUsage(m: MemoryStatsRaw)
    requires m.inactiveFile <= m.usage
    ensures MemoryUsageKiB(m) * KiB <= m.usage
  {
  }

  /** An anomalous reading (inactive cache above usage by at most 2^63 bytes) is
      not clamped to zero: it reports at least 2^53 KiB, which exceeds the
      reported limit whenever that limit is below 2^63 bytes. */
  lemma AnomalyIsNotClamped(m: MemoryStatsRaw)
    requires m.usage < m.inactiveFile <= m.usage + 0x8000_0000_0000_0000
    ensures MemoryUsageKiB(m) >= 0x20_0000_0000_0000
    ensures MemoryUsageKiB(m) > MemoryLimitKiB(m) || m.limit >= 0x8000_0000_0000_0000
  {
  }

  /** Usage of 2 MiB with 1 MiB inactive cache reports 1024 KiB. */
  lemma TwoMiBExample(limit: u64)
    ensures MemoryUsageKiB(MemoryStatsRaw(2097152, limit, 1048576)) == 1024
  {
  }
}
