# docker-exporter stats aggregation, modelled in Dafny

This project models how docker-exporter turns one container's stats snapshot
from the Docker daemon into a flat `ContainerStats` record. The snapshot is the
decoded `recStats` document. The model covers:

- the PID count, copied through;
- the CPU block, which pairs the record's current CPU counters with the totals
  stored for the same container by the previous CPU-enabled request, and then
  stores the current totals in their place;
- six network totals, each summed over every interface in the `networks` map;
- block-I/O input and output totals, classified by the entry's `op` label,
  with one warning for every other label;
- memory usage and limit in KiB, with the inactive page cache subtracted from
  usage.

All arithmetic is Go `uint64`. Sums and the memory subtraction wrap modulo 2^64.
A block entry's Go `int` value goes through `uint64(...)`, so a negative value
becomes v + 2^64. Nothing is clamped. The stored CPU counters are a
`map<string, CpuEntry>` threaded through each request. A fresh client starts
with the empty map (`InitialCpuCounters`).

Modules:

- `GoInt` (goint.dfy): `u64`, `u32` and Go `int`, plus wrap-around `Add`, `Sub`
  and the `uint64(int)` conversion.
- `Records` (records.dfy): the decoded record, `CpuEntry`, the output records,
  warnings and the fetch outcome.
- `Network` (network.dfy): the sum over the interface map.
- `Blkio` (blkio.dfy): the block-I/O classification.
- `Memory` (memory.dfy): the KiB figures.
- `Cpu` (cpu.dfy): the previous-counter bookkeeping, including what the counters
  hold after any sequence of requests.
- `Stats` (stats.dfy): one whole request.

Go ranges over a map in an unspecified order. `Network.SumNetworks` copies this
by taking an arbitrary remaining interface on each iteration. Its postcondition
is the order-free reference sum `FieldSum`, so it holds for every order.
`SumInAnyOrder` restates this for any explicit visiting order.

The daemon call and the JSON decoding are reduced to their outcome:
`Fetched(rec)` or `FetchFailed(error)`.

The code takes a read lock for the lookup and a separate write lock for the
store (stats.go:131-133, 145-150). The model treats each request as one atomic
step (see Left out).

## Model

| member | source | states |
|---|---|---|
| GoInt.Add | internal/docker/stats.go:160-167 | Go `uint64` addition: the result is (a + b) mod 2^64, and it is below `a` exactly when the true sum overflows |
| GoInt.Sub | internal/docker/stats.go:201 | Go `uint64` subtraction: the result is (a − b) mod 2^64; adding `b` back gives `a`; it equals a − b when b ≤ a and a − b + 2^64 otherwise, so it is never clamped |
| GoInt.ToUint64 | internal/docker/stats.go:183-185 | the conversion `uint64(v)` of a Go `int` is v mod 2^64: non-negative values are unchanged and negative ones land at or above 2^63 |
| Network.FieldSumRemove | internal/docker/stats.go:160-167 | any interface can be added first: the sum of a field over the map is that interface's value plus the sum over the other interfaces |
| Network.AddIface | internal/docker/stats.go:161-166 | one loop step: each output counter (Send* from Tx*, Recv* from Rx*) grows by the matching counter of the interface, modulo 2^64 |
| Network.SumNetworks | internal/docker/stats.go:153-175 | whatever order the interfaces are visited in, SendBytes/Errors/Dropped are the mod-2^64 sums of TxBytes/Errors/Dropped, and RecvBytes/Errors/Dropped the sums of RxBytes/Errors/Dropped, over every interface |
| Network.SumInOrderFrame | internal/docker/stats.go:160 | a visit that never touches interface `k` gives the same sum whether or not `k` is in the map |
| Network.SumInAnyOrder | internal/docker/stats.go:160-167 | accumulating a field while visiting the interfaces in any order that lists each exactly once gives the reference sum |
| Network.OrderIrrelevant | internal/docker/stats.go:160-167 | two visiting orders of the same interfaces give the same total |
| Network.TwoInterfacesExample | internal/docker/stats.go:153-175 | interfaces (rx 100, tx 50) and (rx 30, tx 70) give received bytes 130 and sent bytes 120 |
| Blkio.UnknownOps | internal/docker/stats.go:186-195 | every warning carries the container ID and an op other than "read" or "write", and there are never more warnings than entries |
| Blkio.OpSumAppend | internal/docker/stats.go:180-185 | the per-op total over a concatenation of entry lists is the mod-2^64 sum of the totals of the parts |
| Blkio.UnknownOpsAppend | internal/docker/stats.go:186-195 | the warnings for a concatenation are the warnings for the first part followed by those for the second |
| Blkio.TotalBlkio | internal/docker/stats.go:177-196 | the loop gives a block input total equal to the mod-2^64 sum of `uint64(value)` over entries whose op is exactly "read", an output total equal to the same sum over "write" entries, and one warning, in entry order, for each entry with another op |
| Blkio.EntryEffect | internal/docker/stats.go:181-195 | inserting one entry anywhere adds its value to the input total only when it is a read, to the output total only when it is a write, and otherwise adds exactly one warning for its op in its position and nothing to either total |
| Blkio.NoWarningsIffAllKnown | internal/docker/stats.go:181-195 | no warning is produced if and only if every entry's op is "read" or "write" |
| Blkio.NegativeValueWraps | internal/docker/stats.go:183 | a read entry with a negative value contributes value + 2^64 to the input total and nothing to the output total |
| Blkio.ReadWriteTrimExample | internal/docker/stats.go:177-196 | entries read 500, write 200 and trim 999 give input 500, output 200 and a single warning for "trim" tagged with the container ID |
| Memory.MemoryUsageKiB | internal/docker/stats.go:201 | the usage in KiB is the floor of (usage − inactive file) / 1024 when the cache does not exceed usage, and the floor of (usage − inactive file + 2^64) / 1024 when it does |
| Memory.MemoryLimitKiB | internal/docker/stats.go:202 | the limit in KiB is the floor of limit / 1024 |
| Memory.UsageBoundedByRawUsage | internal/docker/stats.go:201 | when the inactive cache does not exceed usage, the reported usage in bytes is at most the raw usage |
| Memory.AnomalyIsNotClamped | internal/docker/stats.go:201 | when the inactive cache exceeds usage by up to 2^63 bytes, the reported usage is at least 2^53 KiB rather than zero, and it exceeds the reported limit unless that limit is 2^63 bytes or more |
| Memory.TwoMiBExample | internal/docker/stats.go:201 | usage 2,097,152 bytes with 1,048,576 bytes of inactive cache reports 1024 KiB |
| Cpu.Previous | internal/docker/stats.go:132 | the lookup gives the stored entry for the container, or zero totals when there is none |
| Cpu.CpuSample | internal/docker/stats.go:129-151 | with CPU off: a zero CPU block, and the counter map is unchanged. With CPU on: usage, user, kernel, system usage and online CPUs are copied from the current counters; the previous totals are the container's stored entry, or zero when there is none; the container's entry becomes the current total and system usage; the key set gains only the container ID; every other entry is unchanged |
| Cpu.SuccessiveSamples | internal/docker/stats.go:129-150 | in two successive CPU-enabled requests for one container, the second's previous totals are the first's current totals |
| Cpu.LastSample | internal/docker/stats.go:145-150 | there is no last sample for a container exactly when no request in the sequence is CPU-enabled for that container |
| Cpu.ReplaySnoc | internal/docker/stats.go:145-150 | serving one more request after a sequence applies that request's CPU step to the counters the sequence left |
| Cpu.ReplayRemembersLastSample | internal/docker/stats.go:145-150 | after any sequence of requests, a container's stored totals are those of its last CPU-enabled request; with no such request the entry is what it was before. Requests for other containers and CPU-disabled requests never change it |
| Cpu.FirstSamplesOfFreshClient | internal/docker/docker.go:40 | from a new client's empty map, the first CPU-enabled request reports zero previous totals; a second request reports the first's totals {1000, 5000} and stores {1500, 5200} |
| Stats.GetContainerStats | internal/docker/stats.go:109-209 | a failed fetch or decode returns the zero record and that error, leaves the counters unchanged and returns no warnings. A decoded record returns no error, with PIds copied, the CPU block and counter update of `CpuSample`, the six network sums, the read/write block totals and unknown-op warnings, and the memory figures in KiB |
| Stats.TwoRequests | internal/docker/stats.go:129-150 | two successful CPU-enabled requests for one container: the second reports the first's usage and system usage as its previous totals, and afterwards the stored entry holds the second's totals |

## Left out

- The daemon call `ContainerStats`, closing the response body (and logging a close error), and JSON decoding: these are I/O and a foreign library. Their outcome is the `Fetch` parameter. Schema drift, where missing JSON fields decode as zero, is part of that outside behaviour.
- The `sync.RWMutex` locking. Each request is modelled as one atomic step on the counter map. The code reads the previous entry under a read lock and writes the new one under a separate write lock. So two concurrent requests for the same container could both read the same previous entry. The model does not cover that interleaving.
- The exported wrapper `GetContainerStats` (stats.go:99-107) only adds `glob.SetError` status reporting around the inner function. That status collaborator is not part of this model. The modelled `Stats.GetContainerStats` returns what both functions return.
- Logger sinks: the unknown-op warnings are returned as a sequence of `Warning` values instead of being logged.
- The generic freshness `Cache`, `copyMap`, and the container-size and disk-usage loaders wired up in `NewDockerClient`: their source is not part of this model. The only fact kept from `NewDockerClient` is that the CPU counter map starts empty.
- `precpu_stats` and each block entry's `major`/`minor` are decoded into the record, but the code never reads them. They appear in the datatypes and nowhere else.
- Go `int` is modelled as 64-bit. On a 32-bit platform `uint64(v)` sign-extends and gives the same v mod 2^64, but the range of v would be narrower.
