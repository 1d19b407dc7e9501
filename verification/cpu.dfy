/**
 CPU bookkeeping. With CPU collection on, a stats request reports the record's
 current CPU counters next to the totals stored for the same container by the
 previous CPU-enabled request (zero when there was none), then stores the
 current totals in their place. With it off, the CPU block is zero and the
 stored counters are untouched. Each request is one atomic step on the map.
 */
module Cpu {
  import opened Records

  /** Go's `m[id]` on a map of structs: the stored entry, or the zero entry. */
  function Previous(counters: CpuCounters, containerID: string): (e: CpuEntry)
    ensures containerID in counters ==> e == counters[containerID]
    ensures containerID !in counters ==> e.usageNS == 0 && e.systemUsageNS == 0
  {
    if containerID in counters then counters[containerID] else ZeroCpuEntry
  }

  /** The entry a CPU-enabled request stores: total usage and system usage. */
  function Current(cur: CpuStatsRaw): CpuEntry
  {
    CpuEntry(cur.cpuUsage.totalUsage, cur.systemCpuUsage)
  }

  datatype CpuOutcome = CpuOutcome(stats: ContainerCpuStats, counters: CpuCounters)

  /** The CPU block of one stats request for `containerID` with current counters `cur`. */
  function CpuSample(counters: CpuCounters, containerID: string, cur: CpuStatsRaw, cpu: bool): (r: CpuOutcome)
    ensures !cpu ==> r.stats == ZeroCpuStats && r.counters == counters
    ensures cpu ==> && r.stats.usageNS == cur.cpuUsage.totalUsage
                    && r.stats.usageUserNS == cur.cpuUsage.usageInUsermode
                    && r.stats.usageKernelNS == cur.cpuUsage.usageInKernelmode
                    && r.stats.systemUsageNS == cur.systemCpuUsage
                    && r.stats.onlineCpus == cur.onlineCpus
    ensures cpu && containerID in counters
            ==> r.stats.preUsageNS == counters[containerID].usageNS
                && r.stats.preSystemUsageNS == counters[containerID].systemUsageNS
    ensures cpu && containerID !in counters
            ==> r.stats.preUsageNS == 0 && r.stats.preSystemUsageNS == 0
    ensures cpu ==> && r.counters.Keys == counters.Keys + {containerID}
                    && r.counters[containerID].usageNS == cur.cpuUsage.totalUsage
                    && r.counters[containerID].systemUsageNS == cur.systemCpuUsage
    ensures forall other :: other in counters && other != containerID
              ==> other in r.counters && r.counters[other] == counters[other]
  {
    if cpu then
      var prev := Previous(counters, containerID);
      var stats := ContainerCpuStats(
        cur.cpuUsage.totalUsage, cur.cpuUsage.usageInUsermode, cur.cpuUsage.usageInKernelmode,
        prev.usageNS, cur.systemCpuUsage, prev.systemUsageNS, cur.onlineCpus);
      CpuOutcome(stats, counters[containerID := Current(cur)])
    else
      CpuOutcome(ZeroCpuStats, counters)
  }

  /** Two successive CPU-enabled requests for the same container: the second
      reports the first one's current totals as its previous totals. */
  lemma SuccessiveSamples(counters: CpuCounters, containerID: string, first: CpuStatsRaw, second: CpuStatsRaw)
    ensures var after := CpuSample(counters, containerID, first, true).counters;
            var r := CpuSample(after, containerID, second, true);
            && r.stats.preUsageNS == first.cpuUsage.totalUsage
            && r.stats.preSystemUsageNS == first.systemCpuUsage
  {
  }

  // ---------------------------------------------------------------------------
  // Traces of requests
  // ---------------------------------------------------------------------------

  /** One stats request as the CPU bookkeeping sees it. */
  datatype Request = Request(containerID: string, cur: CpuStatsRaw, cpu: bool)

  /** The counters after serving `requests` in order, starting from `counters`. */
  function Replay(counters: CpuCounters, requests: seq<Request>): CpuCounters
    decreases |requests|
  {
    if |requests| == 0 then counters
    else
      var q := requests[0];
      Replay(CpuSample(counters, q.containerID, q.cur, q.cpu).counters, requests[1..])
  }

  /** The totals of the last CPU-enabled request for `containerID` in `requests`, if any. */
  function LastSample(requests: seq<Request>, containerID: string): (r: Option<CpuEntry>)
    ensures r.None? <==> forall i :: 0 <= i < |requests| ==> !(requests[i].cpu && requests[i].containerID == containerID)
    decreases |requests|
  {
    if |requests| == 0 then None
    else
      var q := requests[|requests| - 1];
      if q.cpu && q.containerID == containerID then Some(Current(q.cur))
      else LastSample(requests[..|requests| - 1], containerID)
  }

  lemma {:induction false} ReplaySnoc(counters: CpuCounters, requests: seq<Request>, q: Request)
    ensures Replay(counters, requests + [q])
         == CpuSample(Replay(counters, requests), q.containerID, q.cur, q.cpu).counters
    decreases |requests|
  {
    if |requests| == 0 {
      assert requests + [q] == [q];
      assert [q][1..] == [];
    } else {
      var c := CpuSample(counters, requests[0].containerID, requests[0].cur, requests[0].cpu).counters;
      assert (requests + [q])[1..] == requests[1..] + [q];
      ReplaySnoc(c, requests[1..], q);
    }
  }

  /** After any sequence of requests, the totals stored for a container are those
      of its last CPU-enabled request; with none, the entry is what it was before.
      Requests for other containers and CPU-disabled requests leave it alone. */
  lemma {:induction false} ReplayRemembersLastSample(counters: CpuCounters, requests: seq<Request>, containerID: string)
    ensures Previous(Replay(counters, requests), containerID)
         == match LastSample(requests, containerID)
            case Some(e) => e
            case None => Previous(counters, containerID)
    decreases |requests|
  {
    if |requests| > 0 {
      var init := requests[..|requests| - 1];
      var q := requests[|requests| - 1];
      assert requests == init + [q];
      ReplaySnoc(counters, init, q);
      ReplayRemembersLastSample(counters, init, containerID);
    }
  }

  /** A fresh client has no stored counters, so the first CPU-enabled request for
      a container reports zero previous totals; the next one reports the first's. */
  lemma FirstSamplesOfFreshClient(containerID: string)
    ensures var first := CpuStatsRaw(5000, 2, CpuUsage(0, 0, 1000));
            var second := CpuStatsRaw(5200, 2, CpuUsage(0, 0, 1500));
            var r1 := CpuSample(InitialCpuCounters, containerID, first, true);
            var r2 := CpuSample(r1.counters, containerID, second, true);
            && r1.stats.preUsageNS == 0 && r1.stats.preSystemUsageNS == 0
            && r2.stats.preUsageNS == 1000 && r2.stats.preSystemUsageNS == 5000
            && r2.counters[containerID] == CpuEntry(1500, 5200)
  {
  }
}
